/** Board geometry shared by every entity: the logical grid is NumCols
    columns wide and NumRows rows high, with (0, 0) at the top-left corner. */
module Board {
  const NumRows: nat := 20
  const NumCols: nat := 40
}
