/** The clamped cursor both pages use: Next moves forward unless the cursor is
    on the last entry (or the list is empty), Previous moves back unless it is
    on the first. Moving past either end is a no-op, not an error. */
module Cursor {

  /** `if (index < length - 1) index + 1`, as in handleNext and handleNextInvoice. */
  function Next(index: int, length: int): (r: int)
    ensures r == index <==> index >= length - 1
    ensures r != index ==> r == index + 1
    ensures 0 <= index < length ==> 0 <= r < length
  {
    if index < length - 1 then index + 1 else index
  }

  /** `if (index > 0) index - 1`, as in handlePrevious and handlePreviousInvoice. */
  function Previous(index: int): (r: int)
    ensures r == index <==> index <= 0
    ensures r != index ==> r == index - 1
    ensures index >= 0 ==> r >= 0
  {
    if index > 0 then index - 1 else index
  }

  /** The cursor after `k` presses of Next. */
  function NextTimes(index: int, length: int, k: nat): int
    decreases k
  {
    if k == 0 then index else NextTimes(Next(index, length), length, k - 1)
  }

  /** Pressing Next repeatedly from an index in range walks forward one entry
      per press and then stays on the last entry. */
  lemma {:induction false} NextTimesStopsAtLast(index: int, length: int, k: nat)
    requires 0 <= index < length
    ensures NextTimes(index, length, k) == if index + k < length then index + k else length - 1
    decreases k
  {
    if k > 0 {
      NextTimesStopsAtLast(Next(index, length), length, k - 1);
    }
  }

  /** Previous undoes a Next that moved, and Next undoes a Previous that moved. */
  lemma NextPreviousUndo(index: int, length: int)
    requires 0 <= index < length
    ensures Next(index, length) != index ==> Previous(Next(index, length)) == index
    ensures Previous(index) != index ==> Next(Previous(index), length) == index
  {
  }
}
