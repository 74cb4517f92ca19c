/** Integer helpers shared by the puzzles. */
module Numbers {

  /** The distance of `x` from zero. */
  function Abs(x: int): (r: nat)
    ensures r == x || r == -x
  {
    if x < 0 then -x else x
  }
}
