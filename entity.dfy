/** The value types the board generator produces: a grid cell and a ship. */
module Entity {

  /** One cell of a ship as it is sent to the client: a row index, a column
      letter, and the two integer flags `hasShip` and `isHit`. */
  datatype GridCell = GridCell(row: int, column: char, hasShip: int, isHit: int)

  /** A ship as the generator fills it in: its length, how often it has been
      hit, and the cells it occupies in traversal order. */
  datatype Ship = Ship(size: int, hitCount: int, cellsOccupied: seq<GridCell>)
}
