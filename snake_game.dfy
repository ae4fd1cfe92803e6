/**
 * The state the client's Game component holds between ticks: the trail,
 * the food, the heading, the food counter with its bonus flag and the
 * game-over flag. Each React setter call becomes a field update.
 */
module SnakeGame {
  import opened Options
  import opened Grid
  import opened SnakeRules

  /** Every fifth food spawned is a bonus food. */
  predicate IsBonusCount(count: int)
  {
    count % 5 == 0
  }

  /** How many of the food counts 1..n are bonus counts. */
  function BonusesAmong(n: nat): nat
  {
    if n == 0 then 0 else BonusesAmong(n - 1) + (if IsBonusCount(n) then 1 else 0)
  }

  /** Of the first n foods spawned, exactly n / 5 are bonus foods. */
  lemma {:induction false} BonusesAmongIsFifth(n: nat)
    ensures BonusesAmong(n) == n / 5
  {
    if n > 0 {
      BonusesAmongIsFifth(n - 1);
    }
  }

  class Game {
    var trail: seq<Point>
    var food: Point
    var direction: Point
    var foodCount: nat
    var isBonusFood: bool
    var gameOver: bool

    /**
     * The snake is well formed, the food is in the spawn range, the bonus
     * flag marks every fifth food, and the snake has grown by one segment
     * per food eaten.
     */
    ghost predicate BoardValid()
      reads this`trail, this`food, this`foodCount, this`isBonusFood
    {
      && SnakeRules.WellFormed(trail)
      && InSpawnRange(food)
      && isBonusFood == (foodCount > 0 && IsBonusCount(foodCount))
      && |trail| == foodCount + 1
    }

    /** The board state is consistent and the heading is a unit step. */
    ghost predicate Valid()
      reads this
    {
      BoardValid() && IsHeading(direction)
    }

    /** The initial state of the Game component. */
    constructor ()
      ensures Valid()
      ensures trail == [Origin] && food == Point(5, 0, 0) && direction == Point(1, 0, 0)
      ensures foodCount == 0 && !isBonusFood && !gameOver
    {
      trail := [Origin];
      food := Point(5, 0, 0);
      direction := Point(1, 0, 0);
      foodCount := 0;
      isBonusFood := false;
      gameOver := false;
    }

    /** spawnFood: new position from the draws, one more food, bonus on every fifth. */
    method SpawnFood(rx: int, rz: int)
      requires IsDraw(rx) && IsDraw(rz)
      modifies this`food, this`foodCount, this`isBonusFood
      ensures food == SpawnPoint(rx, rz)
      ensures foodCount == old(foodCount) + 1
      ensures isBonusFood <==> IsBonusCount(foodCount)
    {
      food := SpawnPoint(rx, rz);
      var nextFoodCount := foodCount + 1;
      foodCount := nextFoodCount;
      isBonusFood := IsBonusCount(nextFoodCount);
    }

    /** The keydown handler; it is inert once the game is over. */
    method KeyDown(key: Key)
      requires Valid()
      modifies this`direction
      ensures Valid()
      ensures direction == if old(gameOver) then old(direction) else Turn(old(direction), key)
      ensures direction != Reverse(old(direction))
    {
      if gameOver {
        HeadingIsNotItsReverse(direction);
      } else {
        direction := Turn(direction, key);
      }
    }

    /**
     * One run of the interval callback. No tick happens once the game is
     * over. A collision sets game over and reports the final score; eating
     * spawns food from the draws rx, rz and grows the snake; otherwise the
     * snake moves.
     */
    method OnTick(rx: int, rz: int) returns (finalScore: Option<int>)
      requires Valid() && IsDraw(rx) && IsDraw(rz)
      modifies this
      ensures Valid()
      ensures direction == old(direction)
      ensures old(gameOver) ==> unchanged(this) && finalScore == None
      ensures !old(gameOver) ==>
        var t := Step(old(trail), old(direction), old(food));
        && trail == t.trail
        && (t.outcome.Collided? ==>
              gameOver && finalScore == Some(t.outcome.finalScore)
              && food == old(food) && foodCount == old(foodCount) && isBonusFood == old(isBonusFood))
        && (t.outcome == Ate ==>
              !gameOver && finalScore == None
              && food == SpawnPoint(rx, rz) && foodCount == old(foodCount) + 1)
        && (t.outcome == Moved ==>
              !gameOver && finalScore == None
              && food == old(food) && foodCount == old(foodCount) && isBonusFood == old(isBonusFood))
      ensures finalScore.Some? ==> finalScore.value == foodCount
    {
      if gameOver {
        return None;
      }
      StepKeepsWellFormed(trail, direction, food);
      var t := Step(trail, direction, food);
      match t.outcome {
        case Collided(score) =>
          gameOver := true;
          finalScore := Some(score);
        case Ate =>
          SpawnFood(rx, rz);
          trail := t.trail;
          finalScore := None;
        case Moved =>
          trail := t.trail;
          finalScore := None;
      }
    }
  }
}
