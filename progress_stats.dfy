/**
 * The progress record every motor operation reports: an outcome, a step
 * counter, a message and a spare code.  A new record is Idle at step 0
 * with value 0 and an empty message.
 */
module ProgressStats {
  import opened Bytes

  datatype Status = Idle | Processing | FinishedOk | Failed | TimedOut

  datatype PrgSts = PrgSts(state: Status, value: int32, message: string, step: int32)

  /** The property initialisers of a freshly constructed record. */
  const Initial := PrgSts(Idle, 0, "", 0)
}
