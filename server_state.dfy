/**
 * The game server's shared state as values: the session registry (a Map
 * from connection id to player record), the single food item, the four
 * socket events and the messages each one emits. Every handler is a
 * function from the state before the event to the state after it and the
 * messages sent, in order; the GameServer class in module Server performs
 * the same updates in place.
 */
module ServerState {
  import opened Options
  import opened Grid

  type ConnId = string

  datatype Player = Player(id: ConnId, nickname: string, positions: seq<Point>, score: nat)

  datatype Food = Food(position: Point, isBonus: bool)

  /** The three random draws of one generateFood call: two coordinates and the 20% bonus coin. */
  datatype Draw = Draw(rx: int, rz: int, bonus: bool)

  datatype Audience = Everyone | Only(id: ConnId)

  datatype Payload = Players(snapshot: seq<Player>) | FoodUpdate(food: Food)

  datatype Message = Message(audience: Audience, payload: Payload)

  datatype Event =
    | Join(id: ConnId, nickname: string)
    | UpdatePosition(id: ConnId, positions: seq<Point>)
    | EatFood(id: ConnId, draw: Draw)
    | Disconnect(id: ConnId)

  /**
   * The registry and the food. A JavaScript Map iterates in insertion
   * order, so the keys are kept in `order` as well: setting an existing
   * key keeps its place, deleting a key removes it.
   */
  datatype World = World(players: map<ConnId, Player>, order: seq<ConnId>, food: Food)

  datatype Reaction = Reaction(world: World, sent: seq<Message>)

  const InitialFood := Food(Point(5, 0, 0), false)

  const Initial := World(map[], [], InitialFood)

  predicate ValidDraw(d: Draw)
  {
    IsDraw(d.rx) && IsDraw(d.rz)
  }

  function GenerateFood(d: Draw): (f: Food)
    requires ValidDraw(d)
    ensures InSpawnRange(f.position)
    ensures f.isBonus == d.bonus
  {
    Food(SpawnPoint(d.rx, d.rz), d.bonus)
  }

  /** The record a join creates: one segment at the origin and no points. */
  function NewPlayer(id: ConnId, nickname: string): Player
  {
    Player(id, nickname, [Origin], 0)
  }

  /** Points for eating a food: 3 for a bonus food, 1 otherwise. */
  function Worth(food: Food): nat
  {
    if food.isBonus then 3 else 1
  }

  predicate NoDuplicates(s: seq<ConnId>)
  {
    forall i, j :: 0 <= i < j < |s| ==> s[i] != s[j]
  }

  /** The registry's invariant: the key order lists each key once, each record carries its own key, the food is in range. */
  ghost predicate WellFormed(w: World)
  {
    && NoDuplicates(w.order)
    && (forall id :: id in w.order <==> id in w.players)
    && (forall id :: id in w.players ==> w.players[id].id == id)
    && InSpawnRange(w.food.position)
  }

  /** Replacing a registered record by one with the same key keeps the registry well formed. */
  lemma ReplaceRecordKeepsWellFormed(w: World, p: Player, food: Food)
    requires WellFormed(w) && p.id in w.players && InSpawnRange(food.position)
    ensures WellFormed(World(w.players[p.id := p], w.order, food))
  {
    var players := w.players[p.id := p];
    forall id | id in players
      ensures players[id].id == id
    {
      if id != p.id {
        assert players[id] == w.players[id];
      }
    }
  }

  /** Array.from(players.values()): the records in key order. */
  function Snapshot(players: map<ConnId, Player>, order: seq<ConnId>): (s: seq<Player>)
    requires forall id :: id in order ==> id in players
    ensures |s| == |order|
    ensures forall i :: 0 <= i < |order| ==> s[i] == players[order[i]]
  {
    if order == [] then [] else [players[order[0]]] + Snapshot(players, order[1..])
  }

  lemma {:induction false} DistinctCardinality(s: seq<ConnId>)
    requires NoDuplicates(s)
    ensures |set id | id in s| == |s|
  {
    if s != [] {
      DistinctCardinality(s[1..]);
      assert (set id | id in s) == (set id | id in s[1..]) + {s[0]};
      assert s[0] !in s[1..];
    }
  }

  /** In a well-formed registry there are as many keys in the order as records. */
  lemma OrderListsEachKeyOnce(w: World)
    requires WellFormed(w)
    ensures |w.order| == |w.players|
  {
    DistinctCardinality(w.order);
    assert (set id | id in w.order) == w.players.Keys;
  }

  /** A players message carries exactly the registry's records, one per key. */
  lemma SnapshotIsRegistry(w: World)
    requires WellFormed(w)
    ensures var s := Snapshot(w.players, w.order);
      && |s| == |w.players|
      && (forall id :: id in w.players ==> w.players[id] in s)
      && (forall i :: 0 <= i < |s| ==> s[i].id in w.players && w.players[s[i].id] == s[i])
      && (forall i, j :: 0 <= i < j < |s| ==> s[i].id != s[j].id)
  {
    OrderListsEachKeyOnce(w);
    SnapshotHoldsEveryRecord(w);
    SnapshotFollowsOrder(w);
  }

  lemma SnapshotHoldsEveryRecord(w: World)
    requires WellFormed(w)
    ensures forall id :: id in w.players ==> w.players[id] in Snapshot(w.players, w.order)
  {
    var s := Snapshot(w.players, w.order);
    forall id | id in w.players
      ensures w.players[id] in s
    {
      var i :| 0 <= i < |w.order| && w.order[i] == id;
      assert s[i] == w.players[id];
    }
  }

  lemma SnapshotFollowsOrder(w: World)
    requires WellFormed(w)
    ensures var s := Snapshot(w.players, w.order);
      forall i :: 0 <= i < |s| ==> s[i].id == w.order[i] && s[i].id in w.players && w.players[s[i].id] == s[i]
  {
  }

  /** The key order without the given key (Map.prototype.delete). */
  function Without(s: seq<ConnId>, x: ConnId): (r: seq<ConnId>)
    ensures forall id :: id in r <==> id in s && id != x
    ensures NoDuplicates(s) ==> NoDuplicates(r)
    ensures x !in s ==> r == s
  {
    if s == [] then []
    else if s[0] == x then Without(s[1..], x)
    else
      assert NoDuplicates(s) ==> s[0] !in s[1..];
      [s[0]] + Without(s[1..], x)
  }

  /** Deleting a listed key takes it out of its place and leaves the other keys in their order. */
  lemma {:induction false} WithoutKeepsOrder(s: seq<ConnId>, x: ConnId, k: nat)
    requires k < |s| && s[k] == x && x !in s[..k] && x !in s[k + 1..]
    ensures Without(s, x) == s[..k] + s[k + 1..]
  {
    if k == 0 {
      assert s[1..] == s[k + 1..];
    } else {
      var t := s[1..];
      assert s[0] == s[..k][0];
      assert t[..k - 1] == s[..k][1..];
      assert t[k..] == s[k + 1..];
      WithoutKeepsOrder(t, x, k - 1);
      assert s[..k] + s[k + 1..] == [s[0]] + (t[..k - 1] + t[k..]);
    }
  }

  /**
   * join: overwrites the record of the joining connection, then sends the
   * players to everyone and the current food to the joiner only.
   */
  function HandleJoin(w: World, id: ConnId, nickname: string): (r: Reaction)
    requires WellFormed(w)
    ensures WellFormed(r.world)
    ensures r.world.players == w.players[id := NewPlayer(id, nickname)]
    ensures id in w.players ==> r.world.order == w.order
    ensures id !in w.players ==> r.world.order == w.order + [id]
    ensures r.world.food == w.food
    ensures r.sent == [Message(Everyone, Players(Snapshot(r.world.players, r.world.order))),
                       Message(Only(id), FoodUpdate(w.food))]
  {
    var players := w.players[id := NewPlayer(id, nickname)];
    var order := if id in w.players then w.order else w.order + [id];
    Reaction(World(players, order, w.food),
             [Message(Everyone, Players(Snapshot(players, order))), Message(Only(id), FoodUpdate(w.food))])
  }

  /**
   * updatePosition: a registered connection's trail is replaced verbatim
   * and the players are sent to everyone; an unknown connection is ignored.
   */
  function HandleUpdatePosition(w: World, id: ConnId, positions: seq<Point>): (r: Reaction)
    requires WellFormed(w)
    ensures WellFormed(r.world)
    ensures id in w.players ==>
      && r.world == w.(players := w.players[id := w.players[id].(positions := positions)])
      && r.sent == [Message(Everyone, Players(Snapshot(r.world.players, r.world.order)))]
    ensures id !in w.players ==> r.world == w && r.sent == []
  {
    if id in w.players then
      var players := w.players[id := w.players[id].(positions := positions)];
      ReplaceRecordKeepsWellFormed(w, w.players[id].(positions := positions), w.food);
      Reaction(w.(players := players), [Message(Everyone, Players(Snapshot(players, w.order)))])
    else
      Reaction(w, [])
  }

  /**
   * eatFood, as intended: a registered connection scores the current food's
   * worth, the food is replaced by a freshly generated one, and the new food
   * then the players are sent to everyone; an unknown connection is ignored.
   * The source declares the food `const`, so its reassignment throws
   * instead; EatFoodAsWritten models that.
   */
  function HandleEatFood(w: World, id: ConnId, draw: Draw): (r: Reaction)
    requires WellFormed(w) && ValidDraw(draw)
    ensures WellFormed(r.world)
    ensures id in w.players ==>
      && r.world.players == w.players[id := w.players[id].(score := w.players[id].score + Worth(w.food))]
      && r.world.order == w.order
      && r.world.food == GenerateFood(draw)
      && r.sent == [Message(Everyone, FoodUpdate(r.world.food)),
                    Message(Everyone, Players(Snapshot(r.world.players, r.world.order)))]
    ensures id !in w.players ==> r.world == w && r.sent == []
  {
    if id in w.players then
      var p := w.players[id];
      var players := w.players[id := p.(score := p.score + Worth(w.food))];
      var food := GenerateFood(draw);
      ReplaceRecordKeepsWellFormed(w, p.(score := p.score + Worth(w.food)), food);
      Reaction(World(players, w.order, food),
               [Message(Everyone, FoodUpdate(food)), Message(Everyone, Players(Snapshot(players, w.order)))])
    else
      Reaction(w, [])
  }

  /** disconnect: the record is deleted and the players are sent to everyone, joined or not. */
  function HandleDisconnect(w: World, id: ConnId): (r: Reaction)
    requires WellFormed(w)
    ensures WellFormed(r.world)
    ensures r.world.players == w.players - {id}
    ensures r.world.food == w.food
    ensures r.sent == [Message(Everyone, Players(Snapshot(r.world.players, r.world.order)))]
  {
    var players := w.players - {id};
    var order := Without(w.order, id);
    Reaction(World(players, order, w.food), [Message(Everyone, Players(Snapshot(players, order)))])
  }

  predicate Feasible(e: Event)
  {
    e.EatFood? ==> ValidDraw(e.draw)
  }

  function Handle(w: World, e: Event): (r: Reaction)
    requires WellFormed(w) && Feasible(e)
    ensures WellFormed(r.world)
  {
    match e
    case Join(id, nickname) => HandleJoin(w, id, nickname)
    case UpdatePosition(id, positions) => HandleUpdatePosition(w, id, positions)
    case EatFood(id, draw) => HandleEatFood(w, id, draw)
    case Disconnect(id) => HandleDisconnect(w, id)
  }

  /** The state after the events, handled one at a time in arrival order. */
  function Run(w: World, events: seq<Event>): (r: World)
    requires WellFormed(w) && forall i :: 0 <= i < |events| ==> Feasible(events[i])
    ensures WellFormed(r)
    decreases |events|
  {
    if events == [] then w else Run(Handle(w, events[0]).world, events[1..])
  }

  /** Disconnecting twice is disconnecting once, down to the message sent. */
  lemma DisconnectIdempotent(w: World, id: ConnId)
    requires WellFormed(w)
    ensures var once := HandleDisconnect(w, id);
      HandleDisconnect(once.world, id) == once
  {
    var once := HandleDisconnect(w, id);
    assert once.world.players - {id} == once.world.players;
    assert Without(once.world.order, id) == once.world.order;
  }

  /**
   * Over any run of events with no join from the connection, its score
   * never decreases; it cannot reappear once gone.
   */
  lemma {:induction false} ScoreNeverDecreases(w: World, events: seq<Event>, id: ConnId)
    requires WellFormed(w) && forall i :: 0 <= i < |events| ==> Feasible(events[i])
    requires forall i :: 0 <= i < |events| ==> !(events[i].Join? && events[i].id == id)
    decreases |events|
    ensures var r := Run(w, events);
      id in r.players ==> id in w.players && r.players[id].score >= w.players[id].score
  {
    if events != [] {
      var next := Handle(w, events[0]).world;
      ScoreNeverDecreases(next, events[1..], id);
      assert id in next.players ==> id in w.players && next.players[id].score >= w.players[id].score;
    }
  }

  /** Events of other connections leave a connection's record exactly as it was. */
  lemma {:induction false} OthersLeaveRecordAlone(w: World, events: seq<Event>, id: ConnId)
    requires WellFormed(w) && forall i :: 0 <= i < |events| ==> Feasible(events[i])
    requires forall i :: 0 <= i < |events| ==> events[i].id != id
    decreases |events|
    ensures var r := Run(w, events);
      (id in r.players <==> id in w.players) && (id in w.players ==> r.players[id] == w.players[id])
  {
    if events != [] {
      var next := Handle(w, events[0]).world;
      OthersLeaveRecordAlone(next, events[1..], id);
    }
  }

  /**
   * A second join from the same connection resets its record: the
   * registry treats it as a new player, losing the trail and the score.
   */
  lemma RejoinResetsRecord(w: World, id: ConnId, nickname: string)
    requires WellFormed(w) && id in w.players
    ensures HandleJoin(w, id, nickname).world.players[id].score == 0
    ensures HandleJoin(w, id, nickname).world.order == w.order
  {
  }

  /**
   * eatFood exactly as the source runs it. For a registered connection the
   * score is written, then the assignment to the const `foods` throws a
   * TypeError. Nothing catches it in the event listener, so the server
   * process ends: neither message is sent, and the registry and the food
   * are lost (None). An unknown connection is ignored, as intended.
   */
  function EatFoodAsWritten(w: World, id: ConnId): (r: Option<Reaction>)
    requires WellFormed(w)
    ensures r == None <==> id in w.players
    ensures r.Some? ==> r.value.world == w && r.value.sent == []
  {
    if id in w.players then None else Some(Reaction(w, []))
  }

  /** One event as written: the intended handlers, except that eatFood ends the process. */
  function HandleAsWritten(w: World, e: Event): (r: Option<Reaction>)
    requires WellFormed(w)
    ensures r == None <==> e.EatFood? && e.id in w.players
    ensures r.Some? ==> WellFormed(r.value.world)
  {
    match e
    case EatFood(id, _) => EatFoodAsWritten(w, id)
    case _ => Some(Handle(w, e))
  }

  /**
   * A run as written: the messages sent, in order, and the registry at the
   * end, or None once an eatFood has ended the server process. Events after
   * that point are never received.
   */
  datatype Transcript = Transcript(final: Option<World>, sent: seq<Message>)

  function RunAsWritten(w: World, events: seq<Event>): (r: Transcript)
    requires WellFormed(w)
    ensures r.final.Some? ==> WellFormed(r.final.value)
    decreases |events|
  {
    if events == [] then Transcript(Some(w), [])
    else
      match HandleAsWritten(w, events[0])
      case None => Transcript(None, [])
      case Some(reaction) =>
        var rest := RunAsWritten(reaction.world, events[1..]);
        Transcript(rest.final, reaction.sent + rest.sent)
  }

  /** The k-th event is an eatFood from a connection registered at that point of the run. */
  ghost predicate EatsWhileJoined(w: World, events: seq<Event>, k: nat)
    requires WellFormed(w) && forall i :: 0 <= i < |events| ==> Feasible(events[i])
    requires k < |events|
  {
    events[k].EatFood? && events[k].id in Run(w, events[..k]).players
  }

  /** Past the first event, whether the k-th event crashes the server is a question about the rest of the run. */
  lemma EatsWhileJoinedShift(w: World, events: seq<Event>, k: nat)
    requires WellFormed(w) && forall i :: 0 <= i < |events| ==> Feasible(events[i])
    requires 1 <= k < |events|
    ensures EatsWhileJoined(w, events, k) == EatsWhileJoined(Handle(w, events[0]).world, events[1..], k - 1)
  {
    assert events[..k][0] == events[0];
    assert events[..k][1..] == events[1..][..k - 1];
    assert events[k] == events[1..][k - 1];
  }

  /**
   * As written, the server survives a run exactly when no registered
   * connection sends eatFood in it, and then it ends where the intended
   * handlers would.
   */
  lemma {:induction false} RunAsWrittenStopsAtFirstEat(w: World, events: seq<Event>)
    requires WellFormed(w) && forall i :: 0 <= i < |events| ==> Feasible(events[i])
    decreases |events|
    ensures RunAsWritten(w, events).final.Some? <==> forall k :: 0 <= k < |events| ==> !EatsWhileJoined(w, events, k)
    ensures RunAsWritten(w, events).final.Some? ==> RunAsWritten(w, events).final.value == Run(w, events)
  {
    if events != [] {
      var e := events[0];
      assert events[..0] == [];
      if e.EatFood? && e.id in w.players {
        assert EatsWhileJoined(w, events, 0);
      } else {
        var next := Handle(w, e).world;
        var rest := events[1..];
        assert HandleAsWritten(w, e) == Some(Handle(w, e));
        assert RunAsWritten(w, events).final == RunAsWritten(next, rest).final;
        RunAsWrittenStopsAtFirstEat(next, rest);
        assert !EatsWhileJoined(w, events, 0);
        forall k | 1 <= k < |events|
          ensures EatsWhileJoined(w, events, k) == EatsWhileJoined(next, rest, k - 1)
        {
          EatsWhileJoinedShift(w, events, k);
        }
        if forall k :: 0 <= k < |rest| ==> !EatsWhileJoined(next, rest, k) {
          forall k | 0 <= k < |events|
            ensures !EatsWhileJoined(w, events, k)
          {
            if k > 0 {
              assert !EatsWhileJoined(next, rest, k - 1);
            }
          }
        } else {
          var j :| 0 <= j < |rest| && EatsWhileJoined(next, rest, j);
          assert EatsWhileJoined(w, events, j + 1);
        }
      }
    }
  }

  /**
   * The session join, updatePosition, eatFood, disconnect as written: the
   * join's two messages and the update's players go out, then the eatFood
   * ends the server and the disconnect is never handled. An eatFood from a
   * connection that never joined is harmless.
   */
  lemma AliceSessionAsWritten(d: Draw)
    ensures var r := RunAsWritten(Initial, [Join("A", "Alice"), UpdatePosition("A", [Point(1, 0, 0), Point(0, 0, 0)]),
                                          EatFood("A", d), Disconnect("A")]);
      && r.final == None
      && |r.sent| == 3
      && r.sent[2] == Message(Everyone, Players([Player("A", "Alice", [Point(1, 0, 0), Point(0, 0, 0)], 0)]))
    ensures RunAsWritten(Initial, [EatFood("B", d)]) == Transcript(Some(Initial), [])
  {
    var trail := [Point(1, 0, 0), Point(0, 0, 0)];
    var events := [Join("A", "Alice"), UpdatePosition("A", trail), EatFood("A", d), Disconnect("A")];
    var joined := HandleJoin(Initial, "A", "Alice");
    assert joined.world == World(map["A" := NewPlayer("A", "Alice")], ["A"], InitialFood);
    var moved := HandleUpdatePosition(joined.world, "A", trail);
    assert moved.world.players == map["A" := Player("A", "Alice", trail, 0)];
    assert Snapshot(moved.world.players, moved.world.order) == [Player("A", "Alice", trail, 0)];
    assert RunAsWritten(moved.world, events[2..]) == Transcript(None, []);
    assert RunAsWritten(joined.world, events[1..]) == Transcript(None, moved.sent);
    assert RunAsWritten(Initial, events) == Transcript(None, joined.sent + moved.sent);
  }

  /**
   * A single connection joins as Alice, reports a two-segment trail, eats
   * a plain food and disconnects; the registry goes from one record to none.
   */
  lemma AliceSession(d: Draw)
    requires ValidDraw(d)
    ensures var w1 := HandleJoin(Initial, "A", "Alice").world;
      && w1.players == map["A" := Player("A", "Alice", [Point(0, 0, 0)], 0)]
      && var w2 := HandleUpdatePosition(w1, "A", [Point(1, 0, 0), Point(0, 0, 0)]).world;
      && w2.players["A"].positions == [Point(1, 0, 0), Point(0, 0, 0)]
      && var w3 := HandleEatFood(w2, "A", d).world;
      && w3.players["A"].score == 1
      && w3.food == GenerateFood(d)
      && HandleDisconnect(w3, "A").world.players == map[]
  {
    var trail := [Point(1, 0, 0), Point(0, 0, 0)];
    var joined := HandleJoin(Initial, "A", "Alice").world;
    assert joined == World(map["A" := NewPlayer("A", "Alice")], ["A"], InitialFood);
    var moved := HandleUpdatePosition(joined, "A", trail).world;
    assert moved == World(map["A" := Player("A", "Alice", trail, 0)], ["A"], InitialFood);
    var fed := HandleEatFood(moved, "A", d).world;
    assert fed == World(map["A" := Player("A", "Alice", trail, 1)], ["A"], GenerateFood(d));
  }
}
