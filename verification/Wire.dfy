/** The text of a command: tokens that the server writes with single spaces and the engine reads with stream
    extraction. Which commands survive the trip. */
module Wire {
  import opened Geometry
  import opened Candidates
  import opened RegistryModel
  import opened BridgeModel

  // ---- Tokens ----

  /** What stream extraction skips, and the end of a line is one of them. */
  predicate IsBlank(ch: char) { ch in " \t\n\r\U{000B}\U{000C}" }

  predicate IsToken(t: string) {
    t != "" && forall i | 0 <= i < |t| :: !IsBlank(t[i])
  }

  function Join(ts: seq<string>): string {
    if ts == [] then "" else if |ts| == 1 then ts[0] else ts[0] + " " + Join(ts[1..])
  }

  /** The first token and what is left behind it. */
  function Extract(line: string): (r: (string, string))
    ensures |r.0| + |r.1| <= |line| && (forall i | 0 <= i < |r.0| :: !IsBlank(r.0[i]))
  {
    if line == "" then ("", "")
    else if IsBlank(line[0]) then Extract(line[1..])
    else
      var token := Leading(line);
      (token, line[|token|..])
  }

  function Leading(line: string): (t: string)
    ensures |t| <= |line| && t == line[..|t|] && (forall i | 0 <= i < |t| :: !IsBlank(t[i]))
    ensures line != "" && !IsBlank(line[0]) ==> t != ""
  {
    if line == "" || IsBlank(line[0]) then "" else [line[0]] + Leading(line[1..])
  }

  function Tokens(line: string): (ts: seq<string>)
    ensures forall t | t in ts :: IsToken(t)
    decreases |line|
  {
    var (token, rest) := Extract(line);
    if token == "" then [] else [token] + Tokens(rest)
  }

  lemma {:induction false} LeadingToken(t: string, rest: string)
    requires forall i | 0 <= i < |t| :: !IsBlank(t[i])
    requires rest == "" || IsBlank(rest[0])
    ensures Leading(t + rest) == t
  {
    if t != "" {
      LeadingToken(t[1..], rest);
      assert (t + rest)[1..] == t[1..] + rest;
    } else {
      assert t + rest == rest;
    }
  }

  lemma ExtractsToken(t: string, rest: string)
    requires IsToken(t) && (rest == "" || IsBlank(rest[0]))
    ensures Extract(t + rest) == (t, rest)
  {
    LeadingToken(t, rest);
    assert !IsBlank((t + rest)[0]);
    assert (t + rest)[|t|..] == rest;
  }

  lemma SkipsSpace(line: string)
    ensures Tokens(" " + line) == Tokens(line)
  {
    assert (" " + line)[1..] == line;
    assert Extract(" " + line) == Extract(line);
  }

  lemma {:induction false} JoinedTokens(ts: seq<string>)
    requires forall t | t in ts :: IsToken(t)
    ensures Tokens(Join(ts)) == ts
  {
    if ts == [] {
      assert Extract("") == ("", "");
    } else {
      var rest := if |ts| == 1 then "" else " " + Join(ts[1..]);
      assert Join(ts) == ts[0] + rest;
      ExtractsToken(ts[0], rest);
      JoinedTokens(ts[1..]);
      if |ts| > 1 {
        SkipsSpace(Join(ts[1..]));
      } else {
        assert ts == [ts[0]] && Extract("") == ("", "");
      }
    }
  }

  /** A list of strings survives being joined and split if and only if each of them is a token. */
  lemma JoinSurvivesIff(ts: seq<string>)
    ensures Tokens(Join(ts)) == ts <==> forall t | t in ts :: IsToken(t)
  {
    if forall t | t in ts :: IsToken(t) {
      JoinedTokens(ts);
    }
  }

  /** Joined tokens are one line. */
  lemma {:induction false} OneLine(ts: seq<string>)
    requires forall t | t in ts :: IsToken(t)
    ensures '\n' !in Join(ts)
  {
    if ts != [] {
      assert ts[0] in ts && IsToken(ts[0]) && IsBlank('\n');
      OneLine(ts[1..]);
    }
  }

  // ---- Commands ----

  /** How numbers are written and read back; that nothing is lost is all that is used of it. */
  datatype Numbers = Numbers(show: real -> string, read: string -> Option<real>,
    showInt: int -> string, readInt: string -> Option<int>)
  {
    ghost predicate Faithful() {
      && (forall x :: IsToken(show(x)) && read(show(x)) == Some(x))
      && (forall n :: IsToken(showInt(n)) && readInt(showInt(n)) == Some(n))
    }
  }

  function EncodeUpdates(n: Numbers, updates: seq<(Id, Pos)>): seq<string> {
    if updates == [] then []
    else [updates[0].0.name, n.show(updates[0].1.lat), n.show(updates[0].1.lng)] + EncodeUpdates(n, updates[1..])
  }

  function Encode(n: Numbers, c: Command): seq<string> {
    match c
    case Ping => ["PING"]
    case Init(b) =>
      ["INIT", n.show(b.minLat), n.show(b.maxLat), n.show(b.minLng), n.show(b.maxLng), n.showInt(8), n.showInt(7)]
    case Insert(id, pos) => ["INSERT", id.name, n.show(pos.lat), n.show(pos.lng)]
    case Update(id, pos) => ["UPDATE", id.name, n.show(pos.lat), n.show(pos.lng)]
    case BatchUpdate(updates) => ["BATCH_UPDATE", n.showInt(|updates|)] + EncodeUpdates(n, updates)
    case Remove(id) => ["REMOVE", id.name]
    case Knn(q) => ["KNN", n.show(q.from.lat), n.show(q.from.lng), n.showInt(q.k), n.show(q.radius)]
    case Quit => ["QUIT"]
  }

  function DecodePos(n: Numbers, lat: string, lng: string): Option<Pos> {
    match (n.read(lat), n.read(lng))
    case (Some(y), Some(x)) => Some(Pos(y, x))
    case _ => None
  }

  function DecodeUpdates(n: Numbers, ts: seq<string>, count: nat): Option<seq<(Id, Pos)>>
    decreases count
  {
    if count == 0 then Some([])
    else if |ts| < 3 then None
    else
      match (DecodePos(n, ts[1], ts[2]), DecodeUpdates(n, ts[3..], count - 1))
      case (Some(pos), Some(rest)) => Some([(Id(ts[0]), pos)] + rest)
      case _ => None
  }

  /** What the engine's command loop makes of a line; `None` for lines the server never writes. */
  function Decode(n: Numbers, metric: Metric, ts: seq<string>): Option<Command> {
    if ts == [] then None
    else if ts[0] == "PING" then Some(Ping)
    else if ts[0] == "INIT" && |ts| >= 5 then
      match (DecodePos(n, ts[1], ts[3]), DecodePos(n, ts[2], ts[4]))
      case (Some(low), Some(high)) => Some(Init(Box(low.lat, high.lat, low.lng, high.lng)))
      case _ => None
    else if ts[0] == "INSERT" && |ts| >= 4 then
      (match DecodePos(n, ts[2], ts[3]) case Some(pos) => Some(Insert(Id(ts[1]), pos)) case None => None)
    else if ts[0] == "UPDATE" && |ts| >= 4 then
      (match DecodePos(n, ts[2], ts[3]) case Some(pos) => Some(Update(Id(ts[1]), pos)) case None => None)
    else if ts[0] == "BATCH_UPDATE" && |ts| >= 2 then
      match n.readInt(ts[1])
      case Some(count) =>
        (match DecodeUpdates(n, ts[2..], if count < 0 then 0 else count)
         case Some(updates) => Some(BatchUpdate(updates))
         case None => None)
      case None => None
    else if ts[0] == "REMOVE" && |ts| >= 2 then Some(Remove(Id(ts[1])))
    else if ts[0] == "KNN" && |ts| >= 5 then
      match (DecodePos(n, ts[1], ts[2]), n.readInt(ts[3]), n.read(ts[4]))
      case (Some(from), Some(k), Some(radius)) => Some(Knn(Query(metric, from, k, radius)))
      case _ => None
    else if ts[0] == "QUIT" then Some(Quit)
    else None
  }

  /** The ids that occur in a command. */
  function IdsIn(c: Command): set<Id> {
    match c
    case Insert(id, _) => {id}
    case Update(id, _) => {id}
    case Remove(id) => {id}
    case BatchUpdate(updates) => set u | u in updates :: u.0
    case _ => {}
  }

  lemma {:induction false} EncodedTokens(n: Numbers, updates: seq<(Id, Pos)>)
    requires n.Faithful() && forall u | u in updates :: IsToken(u.0.name)
    ensures forall t | t in EncodeUpdates(n, updates) :: IsToken(t)
  {
    if updates != [] {
      EncodedTokens(n, updates[1..]);
    }
  }

  lemma {:induction false} UpdatesSurvive(n: Numbers, updates: seq<(Id, Pos)>)
    requires n.Faithful()
    ensures DecodeUpdates(n, EncodeUpdates(n, updates), |updates|) == Some(updates)
  {
    if updates != [] {
      UpdatesSurvive(n, updates[1..]);
      var ts := EncodeUpdates(n, updates);
      assert ts[3..] == EncodeUpdates(n, updates[1..]);
      assert updates == [updates[0]] + updates[1..];
    }
  }

  /** Reading the tokens of a command back gives the command. */
  lemma DecodesEncoded(n: Numbers, metric: Metric, c: Command)
    requires n.Faithful() && (c.Knn? ==> c.q.metric == metric)
    ensures Decode(n, metric, Encode(n, c)) == Some(c)
  {
    if c.BatchUpdate? {
      UpdatesSurvive(n, c.updates);
      assert Encode(n, c)[2..] == EncodeUpdates(n, c.updates);
    }
  }

  lemma TokensEncoded(n: Numbers, c: Command)
    requires n.Faithful() && forall id | id in IdsIn(c) :: IsToken(id.name)
    ensures forall t | t in Encode(n, c) :: IsToken(t)
  {
    match c
    case BatchUpdate(updates) => BatchTokens(n, updates);
    case Insert(id, _) => assert id in IdsIn(c);
    case Update(id, _) => assert id in IdsIn(c);
    case Remove(id) => assert id in IdsIn(c);
    case _ =>
  }

  lemma BatchTokens(n: Numbers, updates: seq<(Id, Pos)>)
    requires n.Faithful() && forall id | id in IdsIn(BatchUpdate(updates)) :: IsToken(id.name)
    ensures forall t | t in Encode(n, BatchUpdate(updates)) :: IsToken(t)
  {
    forall u | u in updates ensures IsToken(u.0.name) {
      assert u.0 in IdsIn(BatchUpdate(updates));
    }
    EncodedTokens(n, updates);
  }

  /** A command whose ids are tokens crosses the pipe as one line and unchanged. */
  lemma CommandCrosses(n: Numbers, metric: Metric, c: Command)
    requires n.Faithful() && (c.Knn? ==> c.q.metric == metric) && forall id | id in IdsIn(c) :: IsToken(id.name)
    ensures Decode(n, metric, Tokens(Join(Encode(n, c)))) == Some(c) && '\n' !in Join(Encode(n, c))
  {
    TokensEncoded(n, c);
    JoinedTokens(Encode(n, c));
    OneLine(Encode(n, c));
    DecodesEncoded(n, metric, c);
  }

  lemma {:induction false} DecodedIds(n: Numbers, ts: seq<string>, count: nat)
    requires forall t | t in ts :: IsToken(t)
    ensures DecodeUpdates(n, ts, count).Some? ==>
              forall u | u in DecodeUpdates(n, ts, count).value :: IsToken(u.0.name)
    decreases count
  {
    if count > 0 && |ts| >= 3 {
      DecodedIds(n, ts[3..], count - 1);
    }
  }

  /** And only such a command does: whatever the engine reads, the ids in it are tokens. */
  lemma CrossesIff(n: Numbers, metric: Metric, c: Command)
    requires n.Faithful() && (c.Knn? ==> c.q.metric == metric)
    ensures Decode(n, metric, Tokens(Join(Encode(n, c)))) == Some(c) <==> forall id | id in IdsIn(c) :: IsToken(id.name)
  {
    if forall id | id in IdsIn(c) :: IsToken(id.name) {
      CommandCrosses(n, metric, c);
    } else if Decode(n, metric, Tokens(Join(Encode(n, c)))) == Some(c) {
      ReadIdsAreTokens(n, metric, Tokens(Join(Encode(n, c))), c);
    }
  }

  lemma ReadIdsAreTokens(n: Numbers, metric: Metric, ts: seq<string>, c: Command)
    requires (forall t | t in ts :: IsToken(t)) && Decode(n, metric, ts) == Some(c)
    ensures forall id | id in IdsIn(c) :: IsToken(id.name)
  {
    if c.BatchUpdate? {
      var count := n.readInt(ts[1]).value;
      DecodedIds(n, ts[2..], if count < 0 then 0 else count);
    }
  }

  /** The ids the server lets through are tokens, and need no escape in the engine's replies. */
  lemma ValidIdCrosses(id: Id)
    requires IsValidId(id)
    ensures IsToken(id.name) && '"' !in id.name && '\\' !in id.name && forall ch | ch in id.name :: ' ' <= ch
  {
  }

  /** So everything the bridge ever sends for a change of the index or a batch crosses. */
  lemma MirrorCrosses(n: Numbers, metric: Metric, c: Client, m: MirrorCommand, updates: seq<(Id, Pos)>)
    requires n.Faithful()
    ensures forall s | s in Forward(c, m).toEngine && s !in c.toEngine ::
        Decode(n, metric, Tokens(Join(Encode(n, s.command)))) == Some(s.command)
    ensures forall s | s in SendBatch(c, updates).toEngine && s !in c.toEngine ::
        Decode(n, metric, Tokens(Join(Encode(n, s.command)))) == Some(s.command)
  {
    forall s | (s in Forward(c, m).toEngine || s in SendBatch(c, updates).toEngine) && s !in c.toEngine
      ensures Decode(n, metric, Tokens(Join(Encode(n, s.command)))) == Some(s.command)
    {
      assert s.command.Insert? || s.command.Update? || s.command.Remove? || s.command.BatchUpdate?;
      forall id | id in IdsIn(s.command) ensures IsToken(id.name) {
        assert IsValidId(id);
        ValidIdCrosses(id);
      }
      CommandCrosses(n, metric, s.command);
    }
  }
}
