/**
 * The integer game grid shared by the browser client and the server.
 * Every game object lives on the horizontal plane y = 0; the board is
 * the square [-10, 10] x [-10, 10] of (x, z) cells.
 */
module Grid {
  datatype Point = Point(x: int, y: int, z: int)

  const Origin := Point(0, 0, 0)
  const Lo := -10
  const Hi := 10

  /** A cell of the board, on the ground plane. */
  predicate OnBoard(p: Point)
  {
    p.y == 0 && Lo <= p.x <= Hi && Lo <= p.z <= Hi
  }

  /** Cells where food can appear: the board without its x = 10 column and z = 10 row. */
  predicate InSpawnRange(p: Point)
  {
    p.y == 0 && Lo <= p.x < Hi && Lo <= p.z < Hi
  }

  /**
   * A random draw: the integer floor(Math.random() * 20), which lies in [0, 20).
   * Both the client and the server compute a coordinate as
   * Math.floor(Math.random() * 20 - 10), which equals that draw minus 10.
   */
  predicate IsDraw(r: int)
  {
    0 <= r < 20
  }

  function SpawnCoord(r: int): (c: int)
    requires IsDraw(r)
    ensures Lo <= c < Hi
    ensures c - Lo == r
  {
    r - 10
  }

  /** The food position built from two draws; y is fixed at 0. */
  function SpawnPoint(rx: int, rz: int): (p: Point)
    requires IsDraw(rx) && IsDraw(rz)
    ensures InSpawnRange(p) && OnBoard(p)
    ensures p.x == SpawnCoord(rx) && p.z == SpawnCoord(rz)
  {
    Point(SpawnCoord(rx), 0, SpawnCoord(rz))
  }

  /** Every cell of the spawn range is produced by some pair of draws, and only by that one. */
  lemma SpawnPointCoversRange(p: Point)
    requires InSpawnRange(p)
    ensures IsDraw(p.x - Lo) && IsDraw(p.z - Lo) && SpawnPoint(p.x - Lo, p.z - Lo) == p
    ensures forall rx, rz :: IsDraw(rx) && IsDraw(rz) && SpawnPoint(rx, rz) == p ==> rx == p.x - Lo && rz == p.z - Lo
  {
  }
}
