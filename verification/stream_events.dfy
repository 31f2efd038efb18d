/** crates/stream: the events that the ingestion stream hands on. Times are milliseconds. */
module StreamEvents {
  import opened Wrappers
  import opened Numbers

  /** `SlotOther` stands for the statuses nothing downstream reacts to (first shred, dead, ...). */
  datatype SlotStatus = SlotProcessed | SlotConfirmed | SlotFinalized | SlotOther

  datatype StreamEvent =
    | Slot(slot: u64, status: SlotStatus, receivedAt: int)
    | TxStatus(signature: string, slot: u64, err: Option<string>, receivedAt: int)

  /** `b` is `a` with some slot updates left out and no transaction status lost. */
  ghost predicate DropsOnlySlots(a: seq<StreamEvent>, b: seq<StreamEvent>) {
    if a == [] then b == []
    else
      || (b != [] && b[0] == a[0] && DropsOnlySlots(a[1..], b[1..]))
      || (a[0].Slot? && DropsOnlySlots(a[1..], b))
  }
}
