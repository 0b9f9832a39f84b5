/** The gallery's combination lock (src/gallerypuzzle.ts): four number
    wheels read as the digits of a four-digit number, which solves the puzzle
    when it equals the answer 4263. The `onSolved` callback is recorded by
    whether one is set and how often it has fired. */
module Gallery {
  import opened NumberWheels

  const Answer: int := 4263

  /** `calcTotal`: the wheels as thousands, hundreds, tens and units. */
  function Total(w1: int, w2: int, w3: int, w4: int): int {
    w1 * 1000 + w2 * 100 + w3 * 10 + w4
  }

  /** Single digits can be read back from the total, so the total determines
      the four wheel values. */
  lemma TotalDigits(w1: int, w2: int, w3: int, w4: int)
    requires 0 <= w1 <= 9 && 0 <= w2 <= 9 && 0 <= w3 <= 9 && 0 <= w4 <= 9
    ensures Total(w1, w2, w3, w4) / 1000 == w1
    ensures Total(w1, w2, w3, w4) % 1000 / 100 == w2
    ensures Total(w1, w2, w3, w4) % 100 / 10 == w3
    ensures Total(w1, w2, w3, w4) % 10 == w4
  {
    var t := Total(w1, w2, w3, w4);
    var low := w2 * 100 + w3 * 10 + w4;
    assert t == w1 * 1000 + low && 0 <= low < 1000;
    assert t % 1000 == low;
    assert low / 100 == w2 && low % 100 == w3 * 10 + w4;
    assert t % 100 == w3 * 10 + w4;
  }

  /** With every wheel on a stop of the dial (1..9), the puzzle's total is the
      answer exactly when the wheels read 4, 2, 6, 3. */
  lemma SolvedExactlyAt4263(w1: int, w2: int, w3: int, w4: int)
    requires 1 <= w1 <= 9 && 1 <= w2 <= 9 && 1 <= w3 <= 9 && 1 <= w4 <= 9
    ensures Total(w1, w2, w3, w4) == Answer <==> w1 == 4 && w2 == 2 && w3 == 6 && w4 == 3
  {
    TotalDigits(w1, w2, w3, w4);
    TotalDigits(4, 2, 6, 3);
  }

  class GalleryPuzzle {
    var totalValue: int
    const wheel1: NumberWheel
    const wheel2: NumberWheel
    const wheel3: NumberWheel
    const wheel4: NumberWheel
    var doorOpened: bool
    var hasOnSolved: bool
    /** Number of times `onSolved` has fired. */
    var solvedCalls: nat
    var isSolved: bool

    /** The constructor; the source assigns the wheels after construction,
        here they are given up front. */
    constructor(w1: NumberWheel, w2: NumberWheel, w3: NumberWheel, w4: NumberWheel)
      ensures wheel1 == w1 && wheel2 == w2 && wheel3 == w3 && wheel4 == w4
      ensures totalValue == 0 && !doorOpened && !hasOnSolved && solvedCalls == 0 && !isSolved
    {
      totalValue := 0;
      wheel1 := w1;
      wheel2 := w2;
      wheel3 := w3;
      wheel4 := w4;
      doorOpened := false;
      hasOnSolved := false;
      solvedCalls := 0;
      isSolved := false;
    }

    /** Assigning `onSolved`. */
    method SetOnSolved()
      modifies this
      ensures hasOnSolved && solvedCalls == old(solvedCalls) && isSolved == old(isSolved)
      ensures totalValue == old(totalValue)
    {
      hasOnSolved := true;
    }

    method CalcTotal()
      modifies this
      ensures totalValue == Total(wheel1.value, wheel2.value, wheel3.value, wheel4.value)
      ensures isSolved == old(isSolved) && solvedCalls == old(solvedCalls) && hasOnSolved == old(hasOnSolved)
      ensures doorOpened == old(doorOpened)
    {
      totalValue := wheel1.value * 1000 + wheel2.value * 100 + wheel3.value * 10 + wheel4.value;
    }

    /** `onWheelValueChanged`: recompute the total; on the answer, mark the
        puzzle solved and fire `onSolved` (again on every later match). A
        solved puzzle stays solved. */
    method OnWheelValueChanged()
      modifies this
      ensures totalValue == Total(wheel1.value, wheel2.value, wheel3.value, wheel4.value)
      ensures isSolved == (old(isSolved) || totalValue == Answer)
      ensures solvedCalls == old(solvedCalls) + (if totalValue == Answer && hasOnSolved then 1 else 0)
      ensures hasOnSolved == old(hasOnSolved) && doorOpened == old(doorOpened)
    {
      CalcTotal();
      if totalValue == Answer {
        isSolved := true;
        if hasOnSolved {
          solvedCalls := solvedCalls + 1;
        }
      }
    }
  }
}
