/** The boot flash as its commands and status reads show it. */
module FlashChip {

  /** Suspending: told to suspend, and still busy. Held: an operation is
      suspended in it. The busy bit is set in Busy and Suspending, the suspended
      bit in Held alone. */
  datatype Chip = Ready | Busy | Suspending | Held

  /** The busy bit. */
  predicate ChipBusy(chip: Chip) {
    chip == Busy || chip == Suspending
  }

  /** What a start or a resume does to the chip: busy it takes neither, and
      holding an operation it ignores a new one. */
  function Commanded(chip: Chip, resume: bool): Chip {
    if resume then (if chip == Held then Busy else chip) else (if chip == Ready then Busy else chip)
  }

  /** What the suspend command does. */
  function ToldToSuspend(chip: Chip): Chip {
    if chip == Busy then Suspending else chip
  }

  /** What the chip may do of itself, in any time: what it is busy with ends, or
      a suspend lands. */
  predicate OwnMove(a: Chip, b: Chip) {
    || a == b
    || (a == Busy && b == Ready)
    || (a == Suspending && (b == Ready || b == Held))
  }

  /** What run_piece() returns. */
  datatype PieceResult = PieceDone | PieceSuspended | PieceEndless | PieceESuspend
}
