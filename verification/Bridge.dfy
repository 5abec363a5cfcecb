/** The two programs at the ends of the pipes: the server's bridge object and the engine's command loop. */
module Bridge {
  import opened Geometry
  import opened Candidates
  import opened RegistryModel
  import BridgeModel
  import QuadTree
  import CppQuadtree

  type Command = BridgeModel.Command
  type Reply = BridgeModel.Reply

  /** A promise is a ticket, and resolving it is an entry of `settled`. */
  class CppSpatialBridge {
    var process: bool
    var isReady: bool
    var pendingQueue: seq<nat>
    var issued: nat
    var settled: map<nat, BridgeModel.Response>
    var stdin: seq<BridgeModel.Sent>
    ghost var asked: map<nat, Command>

    ghost function View(): BridgeModel.Client
      reads this
    {
      BridgeModel.Client(process, isReady, pendingQueue, issued, settled, asked, stdin)
    }

    /** The engine has just been spawned. */
    constructor ()
      ensures View() == BridgeModel.Client(true, false, [], 0, map[], map[], [])
    {
      process, isReady, pendingQueue, issued, settled, stdin, asked := true, false, [], 0, map[], [], map[];
    }

    predicate IsAvailable()
      reads this
    {
      isReady && process
    }

    method SendCommand(cmd: Command) returns (ticket: nat)
      modifies this
      ensures View() == BridgeModel.Send(old(View()), cmd) && ticket == old(issued)
    {
      ticket := issued;
      issued := issued + 1;
      asked := asked[ticket := cmd];
      if !process {
        settled := settled[ticket := BridgeModel.Failed];
        return;
      }
      pendingQueue := pendingQueue + [ticket];
      stdin := stdin + [BridgeModel.Sent(cmd, Some(ticket))];
    }

    method Insert(id: Id, pos: Pos)
      modifies this
      ensures View() == BridgeModel.Forward(old(View()), InsertCmd(id, pos))
    {
      if IsAvailable() && BridgeModel.IsValidId(id) {
        var _ := SendCommand(BridgeModel.Insert(id, pos));
      }
    }

    method Update(id: Id, pos: Pos)
      modifies this
      ensures View() == BridgeModel.Forward(old(View()), UpdateCmd(id, pos))
    {
      if IsAvailable() && BridgeModel.IsValidId(id) {
        stdin := stdin + [BridgeModel.Sent(BridgeModel.Update(id, pos), None)];
      }
    }

    method Remove(id: Id)
      modifies this
      ensures View() == BridgeModel.Forward(old(View()), RemoveCmd(id))
    {
      if IsAvailable() && BridgeModel.IsValidId(id) {
        var _ := SendCommand(BridgeModel.Remove(id));
      }
    }

    method BatchUpdate(updates: seq<(Id, Pos)>)
      modifies this
      ensures View() == BridgeModel.SendBatch(old(View()), updates)
    {
      if !IsAvailable() {
        return;
      }
      var validUpdates: seq<(Id, Pos)> := [];
      for i := 0 to |updates|
        invariant validUpdates == BridgeModel.ValidUpdates(updates[..i])
      {
        assert updates[..i + 1][..i] == updates[..i];
        if BridgeModel.IsValidId(updates[i].0) {
          validUpdates := validUpdates + [updates[i]];
        }
      }
      assert updates[..|updates|] == updates;
      if validUpdates != [] {
        stdin := stdin + [BridgeModel.Sent(BridgeModel.BatchUpdate(validUpdates), None)];
      }
    }

    method DrainPendingQueue()
      modifies this`pendingQueue, this`settled
      ensures View() == BridgeModel.Drain(old(View()))
    {
      while |pendingQueue| > 0
        invariant BridgeModel.Drain(View()) == BridgeModel.Drain(old(View()))
        decreases |pendingQueue|
      {
        settled := settled[pendingQueue[0] := BridgeModel.Failed];
        pendingQueue := pendingQueue[1..];
      }
    }

    /** A line from the engine; one that cannot be parsed settles its promise as failed. */
    method OnLine(line: BridgeModel.Line)
      modifies this`pendingQueue, this`settled
      ensures View() ==
          BridgeModel.SettleNext(old(View()), if line.intact then BridgeModel.Answer(line.reply)
            else BridgeModel.Failed)
    {
      if |pendingQueue| > 0 {
        var nextResolver := pendingQueue[0];
        pendingQueue := pendingQueue[1..];
        settled := settled[nextResolver := if line.intact then BridgeModel.Answer(line.reply) else BridgeModel.Failed];
      }
    }

    method OnExit()
      modifies this
      ensures View() == BridgeModel.Exited(old(View()))
    {
      isReady, process := false, false;
      DrainPendingQueue();
    }

    method Stop()
      modifies this
      ensures View() == BridgeModel.Stop(old(View()))
    {
      if process {
        stdin := stdin + [BridgeModel.Sent(BridgeModel.Quit, None)];
        process, isReady := false, false;
        DrainPendingQueue();
      }
    }
  }

  class EngineBridge {
    var tree: QuadTree.QuadTree

    ghost predicate Valid()
      reads this, tree, tree.nodes, tree.at.Values
    {
      tree.Indexed()
    }

    ghost function View(): BridgeModel.Engine
      reads this, tree, tree.driverMap.Values
    {
      BridgeModel.Engine(tree.root.bounds, tree.Contents())
    }

    constructor (bounds: Box)
      ensures Valid() && View() == BridgeModel.Engine(bounds, map[]) && fresh(tree) && fresh(tree.nodes)
    {
      tree := new QuadTree.QuadTree(bounds, 8, 10);
    }

    /** One line of the command loop. */
    method Handle(cmd: Command, k: nat, maxDepth: nat) returns (reply: Option<Reply>)
      requires Valid()
      modifies this, tree, tree.nodes, tree.driverMap.Values
      ensures Valid() && View() == BridgeModel.Execute(old(View()), cmd)
      ensures reply.Some? == BridgeModel.HasReply(cmd)
      ensures reply.Some? ==> BridgeModel.Answers(old(View()), cmd, reply.value)
    {
      match cmd {
        case Ping => reply := Some(BridgeModel.Pong);
        case Init(region) =>
          tree := new QuadTree.QuadTree(region, k, maxDepth);
          reply := Some(BridgeModel.Initialised);
        case Insert(id, pos) =>
          var ok := CppQuadtree.Insert(tree, id, pos.lat, pos.lng);
          reply := Some(BridgeModel.Inserted(id, ok));
        case Update(id, pos) =>
          var _ := CppQuadtree.Update(tree, id, pos.lat, pos.lng);
          reply := None;
        case BatchUpdate(updates) =>
          UpdateEach(updates);
          reply := None;
        case Remove(id) =>
          var ok := CppQuadtree.Remove(tree, id);
          reply := Some(BridgeModel.Removed(id, ok));
        case Knn(q) =>
          var results := CppQuadtree.KNearestNeighbors(tree, q);
          reply := Some(BridgeModel.Nearest(results));
        case Quit => reply := Some(BridgeModel.Bye);
      }
    }

    method UpdateEach(updates: seq<(Id, Pos)>)
      requires Valid()
      modifies tree, tree.nodes, tree.driverMap.Values
      ensures Valid() && View() == BridgeModel.UpdateAll(old(View()), updates)
      ensures fresh(tree.nodes - old(tree.nodes)) && fresh(tree.at.Values - old(tree.at.Values))
    {
      for i := 0 to |updates|
        invariant Valid() && View() == BridgeModel.UpdateAll(old(View()), updates[..i])
        invariant fresh(tree.nodes - old(tree.nodes)) && fresh(tree.at.Values - old(tree.at.Values))
      {
        assert updates[..i + 1][..i] == updates[..i];
        var _ := CppQuadtree.Update(tree, updates[i].0, updates[i].1.lat, updates[i].1.lng);
      }
      assert updates[..|updates|] == updates;
    }
  }
}
