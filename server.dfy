/**
 * The socket server: one GameServer holds the module-level `players` Map
 * and the shared food, and each socket event becomes one method that
 * updates them in place and returns the messages it emits, in order.
 * Handlers run one at a time, so each method is atomic.
 */
module Server {
  import opened Grid
  import opened ServerState

  /** The values Join writes in place are those HandleJoin gives. */
  lemma JoinWrites(w: World, id: ConnId, nickname: string)
    requires WellFormed(w)
    ensures var players := w.players[id := NewPlayer(id, nickname)];
      var order := if id in w.players then w.order else w.order + [id];
      HandleJoin(w, id, nickname) ==
        Reaction(World(players, order, w.food),
                 [Message(Everyone, Players(Snapshot(players, order))), Message(Only(id), FoodUpdate(w.food))])
  {
  }

  /** The values EatFood writes in place are those HandleEatFood gives. */
  lemma EatFoodWrites(w: World, id: ConnId, draw: Draw)
    requires WellFormed(w) && ValidDraw(draw)
    ensures id in w.players ==>
      var players := w.players[id := w.players[id].(score := w.players[id].score + Worth(w.food))];
      var food := GenerateFood(draw);
      HandleEatFood(w, id, draw) ==
        Reaction(World(players, w.order, food),
                 [Message(Everyone, FoodUpdate(food)), Message(Everyone, Players(Snapshot(players, w.order)))])
  {
  }

  class GameServer {
    var players: map<ConnId, Player>
    /** The iteration order of the players Map: keys in order of first insertion. */
    var order: seq<ConnId>
    /**
     * The shared food. The source declares it `const` and then reassigns
     * it in the eatFood handler, which throws; here it is a mutable field
     * and EatFood replaces it, as the handler evidently intends.
     */
    var food: Food

    function State(): World
      reads this
    {
      World(players, order, food)
    }

    ghost predicate Valid()
      reads this
    {
      WellFormed(State())
    }

    /** An empty registry and the initial food at (5, 0, 0), not a bonus. */
    constructor ()
      ensures Valid()
      ensures State() == Initial
    {
      players := map[];
      order := [];
      food := InitialFood;
    }

    method Join(id: ConnId, nickname: string) returns (sent: seq<Message>)
      requires Valid()
      modifies this
      ensures Valid()
      ensures players == old(players)[id := NewPlayer(id, nickname)]
      ensures food == old(food)
      ensures sent == [Message(Everyone, Players(Snapshot(players, order))), Message(Only(id), FoodUpdate(food))]
      ensures Reaction(State(), sent) == HandleJoin(old(State()), id, nickname)
    {
      JoinWrites(State(), id, nickname);
      if id !in players {
        order := order + [id];
      }
      players := players[id := NewPlayer(id, nickname)];
      sent := [Message(Everyone, Players(Snapshot(players, order))), Message(Only(id), FoodUpdate(food))];
    }

    method UpdatePosition(id: ConnId, positions: seq<Point>) returns (sent: seq<Message>)
      requires Valid()
      modifies this
      ensures Valid()
      ensures old(id in players) ==>
        players == old(players)[id := old(players[id]).(positions := positions)]
        && sent == [Message(Everyone, Players(Snapshot(players, order)))]
      ensures old(id !in players) ==> players == old(players) && sent == []
      ensures order == old(order) && food == old(food)
      ensures Reaction(State(), sent) == HandleUpdatePosition(old(State()), id, positions)
    {
      sent := [];
      if id in players {
        var player := players[id];
        players := players[id := player.(positions := positions)];
        sent := [Message(Everyone, Players(Snapshot(players, order)))];
      }
    }

    method EatFood(id: ConnId, draw: Draw) returns (sent: seq<Message>)
      requires Valid() && ValidDraw(draw)
      modifies this
      ensures Valid()
      ensures old(id in players) ==>
        && players == old(players)[id := old(players[id]).(score := old(players[id].score) + Worth(old(food)))]
        && food == GenerateFood(draw)
        && sent == [Message(Everyone, FoodUpdate(food)), Message(Everyone, Players(Snapshot(players, order)))]
      ensures old(id !in players) ==> players == old(players) && food == old(food) && sent == []
      ensures order == old(order)
      ensures Reaction(State(), sent) == HandleEatFood(old(State()), id, draw)
    {
      ghost var before := State();
      EatFoodWrites(before, id, draw);
      sent := [];
      if id in players {
        var player := players[id];
        var scored := player.(score := player.score + Worth(food));
        var next := GenerateFood(draw);
        assert scored.id == id;
        ReplaceRecordKeepsWellFormed(before, scored, next);
        players := players[id := scored];
        food := next;
        sent := [Message(Everyone, FoodUpdate(food)), Message(Everyone, Players(Snapshot(players, order)))];
      }
    }

    method Disconnect(id: ConnId) returns (sent: seq<Message>)
      requires Valid()
      modifies this
      ensures Valid()
      ensures players == old(players) - {id}
      ensures food == old(food)
      ensures sent == [Message(Everyone, Players(Snapshot(players, order)))]
      ensures Reaction(State(), sent) == HandleDisconnect(old(State()), id)
    {
      players := players - {id};
      order := Without(order, id);
      sent := [Message(Everyone, Players(Snapshot(players, order)))];
    }

    /** Dispatches one inbound event to its handler. */
    method Dispatch(e: Event) returns (sent: seq<Message>)
      requires Valid() && Feasible(e)
      modifies this
      ensures Valid()
      ensures Reaction(State(), sent) == Handle(old(State()), e)
    {
      match e {
        case Join(id, nickname) => sent := Join(id, nickname);
        case UpdatePosition(id, positions) => sent := UpdatePosition(id, positions);
        case EatFood(id, draw) => sent := EatFood(id, draw);
        case Disconnect(id) => sent := Disconnect(id);
      }
    }
  }
}
