/** Two one-way pipes between the server and the C++ engine, and the promises that wait for replies. */
module BridgeModel {
  import opened Geometry
  import opened Candidates
  import opened RegistryModel

  datatype Command =
    | Ping
    | Init(region: Box)
    | Insert(id: Id, pos: Pos)
    | Update(id: Id, pos: Pos)
    | BatchUpdate(updates: seq<(Id, Pos)>)
    | Remove(id: Id)
    | Knn(q: Query)
    | Quit

  datatype Reply =
    | Pong
    | Initialised
    | Inserted(id: Id, ok: bool)
    | Removed(id: Id, ok: bool)
    | Nearest(candidates: seq<Candidate>)
    | Bye

  predicate HasReply(c: Command) {
    !c.Update? && !c.BatchUpdate?
  }

  // ---- The engine ----

  datatype Engine = Engine(region: Box, drivers: map<Id, Pos>)

  function UpdateOne(e: Engine, id: Id, pos: Pos): Engine {
    if id in e.drivers && InBox(e.region, pos) then e.(drivers := e.drivers[id := pos]) else e
  }

  function UpdateAll(e: Engine, updates: seq<(Id, Pos)>): Engine
    decreases |updates|
  {
    if updates == [] then e
    else UpdateOne(UpdateAll(e, updates[..|updates| - 1]), updates[|updates| - 1].0, updates[|updates| - 1].1)
  }

  /** What a command does to the engine's tree. */
  function Execute(e: Engine, c: Command): Engine {
    match c
    case Init(region) => Engine(region, map[])
    case Insert(id, pos) => if InBox(e.region, pos) then e.(drivers := e.drivers[id := pos]) else e
    case Update(id, pos) => UpdateOne(e, id, pos)
    case BatchUpdate(updates) => UpdateAll(e, updates)
    case Remove(id) => e.(drivers := e.drivers - {id})
    case _ => e
  }

  /** A reply the engine may give to a command. */
  ghost predicate Answers(e: Engine, c: Command, reply: Reply) {
    match c
    case Ping => reply == Pong
    case Init(_) => reply == Initialised
    case Insert(id, pos) => reply == Inserted(id, InBox(e.region, pos))
    case Remove(id) => reply == Removed(id, id in e.drivers)
    case Knn(q) =>
      && reply.Nearest? && Sound(e.drivers, q, reply.candidates)
      && (0.0 < q.radius && BoundsWithin(q.metric, q.from, e.region, 0.0) ==> IsKnn(e.drivers, q, reply.candidates))
    case Quit => reply == Bye
    case _ => false
  }

  // ---- The server's side ----

  datatype Response = Answer(reply: Reply) | Failed

  /** A line on its way to the engine, and the promise that its reply will settle. */
  datatype Sent = Sent(command: Command, ticket: Option<nat>)

  /** `asked` says what each promise was made for; the program does not store it. */
  datatype Client = Client(
    running: bool, ready: bool, pending: seq<nat>, next: nat, settled: map<nat, Response>, asked: map<nat, Command>,
      toEngine: seq<Sent>)

  function IsAvailable(c: Client): bool { c.running && c.ready }

  /** A command with a promise for its reply. */
  function Send(c: Client, command: Command): Client {
    var made := c.(next := c.next + 1, asked := c.asked[c.next := command]);
    if !c.running then made.(settled := c.settled[c.next := Failed])
    else made.(pending := c.pending + [c.next], toEngine := c.toEngine + [Sent(command, Some(c.next))])
  }

  /** A command without one. */
  function Write(c: Client, command: Command): Client {
    c.(toEngine := c.toEngine + [Sent(command, None)])
  }

  predicate SafeChar(ch: char) {
    'a' <= ch <= 'z' || 'A' <= ch <= 'Z' || '0' <= ch <= '9' || ch == '_' || ch == '-'
  }

  predicate IsValidId(id: Id) {
    id.name != "" && forall i | 0 <= i < |id.name| :: SafeChar(id.name[i])
  }

  /** What a change of the registry's index makes the bridge do. */
  function Forward(c: Client, m: MirrorCommand): Client {
    if !IsAvailable(c) || !IsValidId(m.id) then c
    else
      match m
      case InsertCmd(id, pos) => Send(c, Insert(id, pos))
      case UpdateCmd(id, pos) => Write(c, Update(id, pos))
      case RemoveCmd(id) => Send(c, Remove(id))
  }

  /** The updates of a batch whose ids the wire format can carry. */
  function ValidUpdates(updates: seq<(Id, Pos)>): (valid: seq<(Id, Pos)>)
    ensures forall u :: u in valid <==> u in updates && IsValidId(u.0)
  {
    if updates == [] then []
    else
      var u := updates[|updates| - 1];
      ValidUpdates(updates[..|updates| - 1]) + if IsValidId(u.0) then [u] else []
  }

  /** What a batch of positions makes the bridge do. */
  function SendBatch(c: Client, updates: seq<(Id, Pos)>): Client {
    var valid := ValidUpdates(updates);
    if IsAvailable(c) && valid != [] then Write(c, BatchUpdate(valid)) else c
  }

  function SettleNext(c: Client, response: Response): Client {
    if c.pending == [] then c
    else c.(pending := c.pending[1..], settled := c.settled[c.pending[0] := response])
  }

  function Drain(c: Client): (d: Client)
    ensures d.pending == [] && d.next == c.next && d.asked == c.asked && d.toEngine == c.toEngine
    ensures d.running == c.running && d.ready == c.ready
    decreases |c.pending|
  {
    if c.pending == [] then c else Drain(SettleNext(c, Failed))
  }

  function Stop(c: Client): Client {
    if !c.running then c else Drain(Write(c, Quit).(running := false, ready := false))
  }

  function Exited(c: Client): Client {
    Drain(c.(running := false, ready := false))
  }

  // ---- Both sides and the pipes ----

  /** A reply on its way back; a garbled line cannot be parsed. */
  datatype Line = Line(reply: Reply, ticket: Option<nat>, intact: bool)

  datatype Bridge = Bridge(client: Client, engine: Engine, fromEngine: seq<Line>)

  datatype Step =
    | SendStep(command: Command)
    | WriteStep(command: Command)
    | EngineStep(reply: Reply, intact: bool)
    | LineStep
    | ReadyStep
    | StopStep
    | ExitStep

  /** Server and engine move independently. Commands come from the bridge's methods: no command but
      QUIT, written by stop, goes out without a promise unless it has no reply. */
  ghost predicate Enabled(b: Bridge, step: Step) {
    match step
    case SendStep(command) => HasReply(command) && !command.Quit?
    case WriteStep(command) => b.client.running && !HasReply(command)
    case EngineStep(reply, _) =>
      b.client.toEngine != []
        && (HasReply(b.client.toEngine[0].command) ==> Answers(b.engine, b.client.toEngine[0].command, reply))
    case LineStep => b.fromEngine != []
    case ReadyStep => b.client.running
    case _ => true
  }

  function Apply(b: Bridge, step: Step): Bridge
    requires step.EngineStep? ==> b.client.toEngine != []
    requires step.LineStep? ==> b.fromEngine != []
  {
    match step
    case SendStep(command) => b.(client := Send(b.client, command))
    case WriteStep(command) => b.(client := Write(b.client, command))
    case EngineStep(reply, intact) =>
      var sent := b.client.toEngine[0];
      Bridge(b.client.(toEngine := b.client.toEngine[1..]), Execute(b.engine, sent.command),
             if HasReply(sent.command) then b.fromEngine + [Line(reply, sent.ticket, intact)] else b.fromEngine)
    case LineStep =>
      var line := b.fromEngine[0];
      b.(client := SettleNext(b.client, if line.intact then Answer(line.reply) else Failed),
         fromEngine := b.fromEngine[1..])
    case ReadyStep => b.(client := b.client.(ready := true))
    case StopStep => b.(client := Stop(b.client))
    case ExitStep => b.(client := Exited(b.client))
  }

  function SentTickets(sent: seq<Sent>): seq<nat> {
    if sent == [] then []
    else (if sent[0].ticket.Some? then [sent[0].ticket.value] else []) + SentTickets(sent[1..])
  }

  function LineTickets(lines: seq<Line>): seq<nat> {
    if lines == [] then []
    else (if lines[0].ticket.Some? then [lines[0].ticket.value] else []) + LineTickets(lines[1..])
  }

  /** The promises whose replies are still under way, oldest first. */
  function Outstanding(b: Bridge): seq<nat> {
    LineTickets(b.fromEngine) + SentTickets(b.client.toEngine)
  }

  /** The reply is of the kind, and about the driver, that the command asked for. */
  predicate Fits(c: Command, reply: Reply) {
    match c
    case Ping => reply == Pong
    case Init(_) => reply == Initialised
    case Insert(id, _) => reply.Inserted? && reply.id == id
    case Remove(id) => reply.Removed? && reply.id == id
    case Knn(_) => reply.Nearest?
    case _ => false
  }

  // ---- Promises ----

  predicate TicketOk(c: Client, t: nat) {
    && t in c.asked && (t in c.settled <==> t !in c.pending)
    && (t in c.settled && c.settled[t].Answer? ==> Fits(c.asked[t], c.settled[t].reply))
  }

  /** Every promise made is waiting or settled, not both, and no promise waits twice. */
  ghost predicate PromisesOk(c: Client) {
    && (forall i, j | 0 <= i < j < |c.pending| :: c.pending[i] != c.pending[j])
    && (forall t | t in c.pending :: t < c.next) && (forall t | t in c.settled :: t < c.next)
    && (forall t: nat {:trigger TicketOk(c, t)} | t < c.next :: TicketOk(c, t))
  }

  /** While the engine runs, the waiting promises are those whose replies are under way, in the same order. */
  ghost predicate Aligned(b: Bridge) {
    if b.client.running then
      && b.client.pending == Outstanding(b)
      && (forall i | 0 <= i < |b.client.toEngine| ::
            HasReply(b.client.toEngine[i].command) == b.client.toEngine[i].ticket.Some?)
      && (forall i | 0 <= i < |b.fromEngine| :: b.fromEngine[i].ticket.Some?)
    else b.client.pending == []
  }

  ghost predicate SentFits(c: Client, ticket: nat, command: Command) {
    ticket < c.next && ticket in c.asked && c.asked[ticket] == command && !command.Quit?
  }

  predicate ReplyFits(c: Client, ticket: nat, reply: Reply) {
    ticket < c.next && ticket in c.asked && Fits(c.asked[ticket], reply)
  }

  ghost predicate TicketsFit(b: Bridge) {
    && (forall i {:trigger b.client.toEngine[i]} | 0 <= i < |b.client.toEngine| && b.client.toEngine[i].ticket.Some? ::
          SentFits(b.client, b.client.toEngine[i].ticket.value, b.client.toEngine[i].command))
    && (forall i {:trigger b.fromEngine[i]} | 0 <= i < |b.fromEngine| && b.fromEngine[i].ticket.Some? ::
          ReplyFits(b.client, b.fromEngine[i].ticket.value, b.fromEngine[i].reply))
  }

  ghost predicate Inv(b: Bridge) {
    PromisesOk(b.client) && Aligned(b) && TicketsFit(b)
  }

  lemma {:induction false} SentAppend(a: seq<Sent>, s: Sent)
    ensures SentTickets(a + [s]) == SentTickets(a) + if s.ticket.Some? then [s.ticket.value] else []
  {
    if a != [] {
      SentAppend(a[1..], s);
      assert (a + [s])[1..] == a[1..] + [s];
    }
  }

  lemma {:induction false} LinesAppend(a: seq<Line>, l: Line)
    ensures LineTickets(a + [l]) == LineTickets(a) + if l.ticket.Some? then [l.ticket.value] else []
  {
    if a != [] {
      LinesAppend(a[1..], l);
      assert (a + [l])[1..] == a[1..] + [l];
    }
  }

  lemma SendPromises(c: Client, command: Command)
    requires PromisesOk(c) && (!c.running ==> c.pending == [])
    ensures PromisesOk(Send(c, command))
  {
    var c' := Send(c, command);
    assert forall i | 0 <= i < |c.pending| :: c.pending[i] in c.pending;
    forall t: nat | t < c'.next ensures TicketOk(c', t) {
      assert t < c.next ==> TicketOk(c, t);
    }
  }

  lemma SendTickets(b: Bridge, command: Command)
    requires TicketsFit(b) && !command.Quit?
    ensures TicketsFit(b.(client := Send(b.client, command)))
  {
    var c, c' := b.client, Send(b.client, command);
    forall i | 0 <= i < |c'.toEngine| && c'.toEngine[i].ticket.Some?
      ensures SentFits(c', c'.toEngine[i].ticket.value, c'.toEngine[i].command)
    {
      assert i < |c.toEngine| ==> c'.toEngine[i] == c.toEngine[i];
    }
  }

  lemma SendKeeps(b: Bridge, command: Command)
    requires Inv(b) && HasReply(command) && !command.Quit?
    ensures Inv(b.(client := Send(b.client, command)))
  {
    SendPromises(b.client, command);
    SendTickets(b, command);
    SentAppend(b.client.toEngine, Sent(command, Some(b.client.next)));
  }

  lemma WriteKeeps(b: Bridge, command: Command)
    requires Inv(b) && b.client.running && !HasReply(command)
    ensures Inv(b.(client := Write(b.client, command)))
  {
    var c, c' := b.client, Write(b.client, command);
    SentAppend(c.toEngine, Sent(command, None));
    forall t: nat | t < c'.next ensures TicketOk(c', t) {
      assert TicketOk(c, t);
    }
  }

  /** The bridge's own methods only ever take these steps. */
  lemma ForwardKeeps(b: Bridge, m: MirrorCommand)
    requires Inv(b)
    ensures Inv(b.(client := Forward(b.client, m)))
  {
    if IsAvailable(b.client) && IsValidId(m.id) {
      match m
      case InsertCmd(id, pos) => SendKeeps(b, Insert(id, pos));
      case UpdateCmd(id, pos) => WriteKeeps(b, Update(id, pos));
      case RemoveCmd(id) => SendKeeps(b, Remove(id));
    }
  }

  lemma SendBatchKeeps(b: Bridge, updates: seq<(Id, Pos)>)
    requires Inv(b)
    ensures Inv(b.(client := SendBatch(b.client, updates)))
  {
    if IsAvailable(b.client) && ValidUpdates(updates) != [] {
      WriteKeeps(b, BatchUpdate(ValidUpdates(updates)));
    }
  }

  lemma SettleKeepsPromises(c: Client, response: Response)
    requires PromisesOk(c)
    requires c.pending != [] && response.Answer? ==>
        c.pending[0] in c.asked && Fits(c.asked[c.pending[0]], response.reply)
    ensures PromisesOk(SettleNext(c, response))
  {
    var c' := SettleNext(c, response);
    if c.pending != [] {
      assert c.pending == [c.pending[0]] + c.pending[1..];
      assert c.pending[0] in c.pending && forall t | t in c'.pending :: t in c.pending;
      forall t: nat | t < c'.next ensures TicketOk(c', t) {
        assert TicketOk(c, t);
        assert t in c.pending <==> t == c.pending[0] || t in c.pending[1..];
        assert c.pending[0] !in c.pending[1..];
      }
    }
  }

  lemma {:induction false} DrainKeepsPromises(c: Client)
    requires PromisesOk(c)
    ensures PromisesOk(Drain(c))
    ensures forall t | t in c.pending :: t in Drain(c).settled && Drain(c).settled[t] == Failed
    ensures forall t | t in c.settled :: t in Drain(c).settled && Drain(c).settled[t] == c.settled[t]
    decreases |c.pending|
  {
    if c.pending != [] {
      SettleKeepsPromises(c, Failed);
      DrainKeepsPromises(SettleNext(c, Failed));
      assert c.pending == [c.pending[0]] + c.pending[1..];
      assert c.pending[0] in c.pending && TicketOk(c, c.pending[0]);
      forall t | t in c.settled ensures t != c.pending[0] {
        assert TicketOk(c, t);
      }
    }
  }

  lemma EngineStepKeeps(b: Bridge, reply: Reply, intact: bool)
    requires Inv(b) && Enabled(b, EngineStep(reply, intact))
    ensures Inv(Apply(b, EngineStep(reply, intact)))
  {
    LinesAppend(b.fromEngine, Line(reply, b.client.toEngine[0].ticket, intact));
    SamePromises(b.client, b.client.(toEngine := b.client.toEngine[1..]));
    EngineTickets(b, reply, intact);
    assert forall i | 0 <= i < |b.client.toEngine[1..]| :: b.client.toEngine[1..][i] == b.client.toEngine[i + 1];
  }

  lemma EngineTickets(b: Bridge, reply: Reply, intact: bool)
    requires TicketsFit(b) && Enabled(b, EngineStep(reply, intact))
    ensures TicketsFit(Apply(b, EngineStep(reply, intact)))
  {
    var sent, b' := b.client.toEngine[0], Apply(b, EngineStep(reply, intact));
    forall i | 0 <= i < |b'.client.toEngine| && b'.client.toEngine[i].ticket.Some?
      ensures SentFits(b'.client, b'.client.toEngine[i].ticket.value, b'.client.toEngine[i].command)
    {
      assert b'.client.toEngine[i] == b.client.toEngine[i + 1];
    }
    forall i | 0 <= i < |b'.fromEngine| && b'.fromEngine[i].ticket.Some?
      ensures ReplyFits(b'.client, b'.fromEngine[i].ticket.value, b'.fromEngine[i].reply)
    {
      assert b'.fromEngine[i] == if i < |b.fromEngine| then b.fromEngine[i] else Line(reply, sent.ticket, intact);
    }
  }

  /** The promise a line settles is the one its command was sent with. */
  lemma LineFindsItsPromise(b: Bridge)
    requires Inv(b) && b.fromEngine != [] && b.client.running
    ensures b.client.pending != [] && b.fromEngine[0].ticket == Some(b.client.pending[0])
    ensures b.client.pending[0] in b.client.asked && Fits(b.client.asked[b.client.pending[0]], b.fromEngine[0].reply)
  {
  }

  lemma LineStepKeeps(b: Bridge)
    requires Inv(b) && b.fromEngine != []
    ensures Inv(Apply(b, LineStep))
  {
    var line, b' := b.fromEngine[0], Apply(b, LineStep);
    if b.client.running {
      LineFindsItsPromise(b);
    }
    SettleKeepsPromises(b.client, if line.intact then Answer(line.reply) else Failed);
    assert forall i | 0 <= i < |b'.fromEngine| :: b'.fromEngine[i] == b.fromEngine[i + 1];
  }

  lemma CloseKeeps(b: Bridge, c: Client)
    requires Inv(b) && PromisesOk(c) && c.pending == b.client.pending && !c.running && c.asked == b.client.asked
    requires c.next == b.client.next
    requires c.toEngine == b.client.toEngine || c.toEngine == b.client.toEngine + [Sent(Quit, None)]
    ensures Inv(b.(client := Drain(c)))
  {
    DrainKeepsPromises(c);
  }

  lemma SamePromises(c: Client, c': Client)
    requires PromisesOk(c) && c'.pending == c.pending && c'.next == c.next && c'.settled == c.settled
    requires c'.asked == c.asked
    ensures PromisesOk(c')
  {
    forall t: nat | t < c'.next ensures TicketOk(c', t) {
      assert TicketOk(c, t);
    }
  }

  /** Replies never cross: whatever server and engine do, each line settles the promise of its own command. */
  lemma StepKeeps(b: Bridge, step: Step)
    requires Inv(b) && Enabled(b, step)
    ensures Inv(Apply(b, step))
  {
    match step
    case SendStep(command) => SendKeeps(b, command);
    case WriteStep(command) => WriteKeeps(b, command);
    case EngineStep(reply, intact) => EngineStepKeeps(b, reply, intact);
    case LineStep => LineStepKeeps(b);
    case ReadyStep => SamePromises(b.client, b.client.(ready := true));
    case StopStep =>
      var c := Write(b.client, Quit).(running := false, ready := false);
      SamePromises(b.client, c);
      CloseKeeps(b, c);
    case ExitStep =>
      var c := b.client.(running := false, ready := false);
      SamePromises(b.client, c);
      CloseKeeps(b, c);
  }

  /** A run: a new engine process, whatever it stores, and a client that has asked for nothing; then steps. */
  ghost predicate IsBridgeRun(states: seq<Bridge>, steps: seq<Step>) {
    && |states| == |steps| + 1
    && states[0].client == Client(true, false, [], 0, map[], map[], []) && states[0].fromEngine == []
    && forall i {:trigger steps[i]} | 0 <= i < |steps| ::
         Enabled(states[i], steps[i]) && states[i + 1] == Apply(states[i], steps[i])
  }

  /** In every state of every run promises and replies are paired. */
  lemma {:induction false} EveryStatePaired(states: seq<Bridge>, steps: seq<Step>, i: nat)
    requires IsBridgeRun(states, steps) && i < |states|
    ensures Inv(states[i])
  {
    if i > 0 {
      EveryStatePaired(states, steps, i - 1);
      assert Enabled(states[i - 1], steps[i - 1]) && states[i] == Apply(states[i - 1], steps[i - 1]);
      StepKeeps(states[i - 1], steps[i - 1]);
    }
  }

  /** Stopping, or the engine's exit, settles every promise still waiting and touches no other. */
  lemma CloseSettlesAll(b: Bridge, step: Step)
    requires Inv(b) && (step == StopStep || step == ExitStep)
    ensures
      var c, c' := b.client, Apply(b, step).client;
      && c'.pending == []
      && (forall t: nat | t < c.next :: t in c'.settled)
      && (forall t: nat | t < c.next :: c'.settled[t] == if t in c.settled then c.settled[t] else Failed)
      && (c.running || step == ExitStep ==> !c'.running && !c'.ready)
      && c'.toEngine == c.toEngine + if c.running && step == StopStep then [Sent(Quit, None)] else []
  {
    var c := if step == StopStep then Write(b.client, Quit).(running := false, ready := false)
      else b.client.(running := false, ready := false);
    SamePromises(b.client, c);
    DrainKeepsPromises(c);
    forall t: nat | t < b.client.next ensures t in b.client.settled <==> t !in b.client.pending {
      assert TicketOk(b.client, t);
    }
  }

  /** A promise once settled keeps its outcome. */
  lemma SettledOnce(b: Bridge, step: Step, t: nat)
    requires Inv(b) && Enabled(b, step) && t in b.client.settled
    ensures t in Apply(b, step).client.settled && Apply(b, step).client.settled[t] == b.client.settled[t]
  {
    assert TicketOk(b.client, t);
    match step
    case StopStep => CloseSettlesAll(b, step);
    case ExitStep => CloseSettlesAll(b, step);
    case _ =>
  }

  /** Once a promise is settled, no later state of the run has another outcome for it. */
  lemma {:induction false} OutcomeStays(states: seq<Bridge>, steps: seq<Step>, i: nat, j: nat, t: nat)
    requires IsBridgeRun(states, steps) && i <= j < |states| && t in states[i].client.settled
    ensures t in states[j].client.settled && states[j].client.settled[t] == states[i].client.settled[t]
  {
    if i < j {
      OutcomeStays(states, steps, i, j - 1, t);
      EveryStatePaired(states, steps, j - 1);
      assert Enabled(states[j - 1], steps[j - 1]) && states[j] == Apply(states[j - 1], steps[j - 1]);
      SettledOnce(states[j - 1], steps[j - 1], t);
    }
  }

  // ---- Answers are true ----

  /** At step `j` of the run the engine read the command of promise `t` and gave this reply, truthfully. */
  ghost predicate SaidAt(states: seq<Bridge>, steps: seq<Step>, j: nat, t: nat, command: Command, reply: Reply) {
    && j < |steps| < |states| && steps[j].EngineStep? && states[j].client.toEngine != []
    && states[j].client.toEngine[0] == Sent(command, Some(t)) && Answers(states[j].engine, command, reply)
  }

  ghost predicate SaidBefore(states: seq<Bridge>, steps: seq<Step>, i: nat, t: nat, reply: Reply)
    requires i < |states|
  {
    t in states[i].client.asked
      && exists j: nat :: j < i && SaidAt(states, steps, j, t, states[i].client.asked[t], reply)
  }

  ghost predicate LinesTrue(states: seq<Bridge>, steps: seq<Step>, i: nat)
    requires i < |states|
  {
    forall n | 0 <= n < |states[i].fromEngine| && states[i].fromEngine[n].ticket.Some? ::
      SaidBefore(states, steps, i, states[i].fromEngine[n].ticket.value, states[i].fromEngine[n].reply)
  }

  ghost predicate AnswersTrue(states: seq<Bridge>, steps: seq<Step>, i: nat)
    requires i < |states|
  {
    forall t | t in states[i].client.settled && states[i].client.settled[t].Answer? ::
      SaidBefore(states, steps, i, t, states[i].client.settled[t].reply)
  }

  lemma StillSaid(states: seq<Bridge>, steps: seq<Step>, i: nat, t: nat, reply: Reply)
    requires i + 1 < |states| && SaidBefore(states, steps, i, t, reply)
    requires t in states[i + 1].client.asked && states[i + 1].client.asked[t] == states[i].client.asked[t]
    ensures SaidBefore(states, steps, i + 1, t, reply)
  {
    var j: nat :| j < i && SaidAt(states, steps, j, t, states[i].client.asked[t], reply);
    assert SaidAt(states, steps, j, t, states[i + 1].client.asked[t], reply);
  }

  /** What a promise was made for does not change. */
  lemma AskedStays(b: Bridge, step: Step, t: nat)
    requires Inv(b) && Enabled(b, step) && t < b.client.next
    ensures t in b.client.asked && t in Apply(b, step).client.asked
    ensures Apply(b, step).client.asked[t] == b.client.asked[t]
  {
    assert TicketOk(b.client, t);
  }

  lemma LinesStayTrue(states: seq<Bridge>, steps: seq<Step>, i: nat)
    requires i < |steps| < |states| && Inv(states[i]) && Enabled(states[i], steps[i])
    requires states[i + 1] == Apply(states[i], steps[i]) && LinesTrue(states, steps, i)
    ensures LinesTrue(states, steps, i + 1)
  {
    var b, b' := states[i], states[i + 1];
    forall n | 0 <= n < |b'.fromEngine| && b'.fromEngine[n].ticket.Some?
      ensures SaidBefore(states, steps, i + 1, b'.fromEngine[n].ticket.value, b'.fromEngine[n].reply)
    {
      var line := b'.fromEngine[n];
      if steps[i].EngineStep? && n == |b.fromEngine| {
        var sent := b.client.toEngine[0];
        AskedStays(b, steps[i], line.ticket.value);
        assert SaidAt(states, steps, i, line.ticket.value, b'.client.asked[line.ticket.value], line.reply);
      } else {
        var m := if steps[i].LineStep? then n + 1 else n;
        assert b.fromEngine[m] == line;
        AskedStays(b, steps[i], line.ticket.value);
        StillSaid(states, steps, i, line.ticket.value, line.reply);
      }
    }
  }

  /** A step settles promises as failed, except that a line may settle the oldest one with its reply. */
  lemma NewlySettled(b: Bridge, step: Step, t: nat)
    requires Inv(b) && Enabled(b, step) && t in Apply(b, step).client.settled
    ensures t < Apply(b, step).client.next
    ensures t in b.client.settled ==> t < b.client.next && Apply(b, step).client.settled[t] == b.client.settled[t]
    ensures t !in b.client.settled && Apply(b, step).client.settled[t].Answer? ==>
              && step.LineStep? && b.fromEngine[0].intact && b.fromEngine[0].ticket == Some(t) && t < b.client.next
              && Apply(b, step).client.settled[t] == Answer(b.fromEngine[0].reply)
  {
    StepKeeps(b, step);
    if t in b.client.settled {
      SettledOnce(b, step, t);
    }
    match step
    case StopStep => CloseSettlesAll(b, step);
    case ExitStep => CloseSettlesAll(b, step);
    case LineStep =>
      if b.client.running {
        LineFindsItsPromise(b);
      }
    case _ =>
  }

  lemma AnswersStayTrue(states: seq<Bridge>, steps: seq<Step>, i: nat)
    requires i < |steps| < |states| && Inv(states[i]) && Enabled(states[i], steps[i])
    requires states[i + 1] == Apply(states[i], steps[i])
    requires LinesTrue(states, steps, i) && AnswersTrue(states, steps, i)
    ensures AnswersTrue(states, steps, i + 1)
  {
    var b, b' := states[i], states[i + 1];
    forall t | t in b'.client.settled && b'.client.settled[t].Answer?
      ensures SaidBefore(states, steps, i + 1, t, b'.client.settled[t].reply)
    {
      NewlySettled(b, steps[i], t);
      AskedStays(b, steps[i], t);
      StillSaid(states, steps, i, t, b'.client.settled[t].reply);
    }
  }

  /** In every state of every run, a promise with an answer has the reply the engine gave, truthfully, when it read the
      very command the promise was made for. */
  lemma {:induction false} EveryAnswerTrue(states: seq<Bridge>, steps: seq<Step>, i: nat)
    requires IsBridgeRun(states, steps) && i < |states|
    ensures LinesTrue(states, steps, i) && AnswersTrue(states, steps, i)
  {
    if i > 0 {
      EveryAnswerTrue(states, steps, i - 1);
      EveryStatePaired(states, steps, i - 1);
      assert Enabled(states[i - 1], steps[i - 1]) && states[i] == Apply(states[i - 1], steps[i - 1]);
      LinesStayTrue(states, steps, i - 1);
      AnswersStayTrue(states, steps, i - 1);
    }
  }

  /** A line does its job: the oldest promise gets the reply, or fails if the line was garbled; nothing else changes. */
  lemma LineSettlesOldest(b: Bridge)
    requires Inv(b) && b.fromEngine != [] && b.client.running
    ensures
      var b', line := Apply(b, LineStep), b.fromEngine[0];
      && line.ticket.Some? && b.client.pending == [line.ticket.value] + b'.client.pending
      && b'.fromEngine == b.fromEngine[1..] && b'.engine == b.engine
      && b'.client.settled == b.client.settled[line.ticket.value := if line.intact then Answer(line.reply) else Failed]
      && b'.client.toEngine == b.client.toEngine && b'.client.running
  {
    LineFindsItsPromise(b);
  }

  /** Nothing is left waiting: once both pipes are empty, every promise is settled. */
  lemma EmptyPipesSettleAll(b: Bridge, t: nat)
    requires Inv(b) && b.client.toEngine == [] && b.fromEngine == [] && t < b.client.next
    ensures t in b.client.settled
  {
    assert TicketOk(b.client, t);
  }

  /** After a failed write drains the queue of a live engine, later replies still find their own promises
      exactly when none was outstanding. */
  lemma DrainedAliveIff(b: Bridge)
    requires Inv(b) && b.client.running
    ensures Aligned(b.(client := Drain(b.client))) <==> b.client.pending == []
  {
  }
}
