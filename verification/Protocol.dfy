/** The typed game events that the poller feeds to both timers. */
module Protocol {
  /** A level exit carries the goal it was reached by; the goal "abort" means the player left or fell. */
  datatype GameEvent =
    | Death
    | Checkpoint
    | LevelExit(goal: string)
    | OtherEvent

  const ABORT := "abort"
}
