/** crates/lifecycle: one bundle, in memory and in the table, and what each transition does to it. */
module LifecycleRows {
  import opened Wrappers
  import opened Numbers
  import opened StreamEvents
  import opened Failure

  datatype Stage = Submitted | Processed | Confirmed | Finalized | Failed {
    function Rank(): nat {
      match this
      case Submitted => 0
      case Processed => 1
      case Confirmed => 2
      case Finalized => 3
      case Failed => 4
    }

    /** The rows `hydrate` and `reconcile` select. */
    predicate Open() {
      Submitted? || Processed? || Confirmed?
    }
  }

  predicate Landed(s: Stage) {
    s.Processed? || s.Confirmed? || s.Finalized?
  }

  datatype Source = FromStream | FromReconcile

  /** A bundle tracked in memory. */
  datatype Pending = Pending(
    memoSignature: string,
    state: Stage,
    landedSlot: Option<u64>,
    submittedSlot: u64,
    blockhashFetchedAtSlot: u64,
    submittedAt: int,
    processedAt: Option<int>,
    confirmedAt: Option<int>,
    tipLamports: u64,
    tipP50: Option<u64>,
    tipP75: Option<u64>,
    jitoInflight: Option<string>)

  /** What the tracker reads from a `BundleRecord`. */
  datatype Submission = Submission(
    memoSignature: string,
    blockhashFetchedAtSlot: u64,
    tipLamports: u64,
    submittedAt: int)

  /** A row of `bundle_submissions`, without the construction metadata nothing reads back. */
  datatype Row = Row(
    memoSignature: string,
    blockhashFetchedAtSlot: i64,
    submittedSlot: i64,
    tipLamports: i64,
    tipP50: Option<i64>,
    tipP75: Option<i64>,
    status: Stage,
    submittedAt: int,
    processedAt: Option<int>,
    confirmedAt: Option<int>,
    finalizedAt: Option<int>,
    landedSlot: Option<i64>,
    submitToProcess: Option<int>,
    processToConfirm: Option<int>,
    confirmToFinalize: Option<int>,
    failure: Option<Classification>,
    processedSource: Option<Source>,
    confirmedSource: Option<Source>,
    finalizedSource: Option<Source>,
    jitoInflightStatus: Option<string>)

  /** A persisted transition. */
  datatype Write =
    | WriteProcessed(id: int, processedAt: int, landed: i64, submitToProcess: Option<int>, source: Source)
    | WriteConfirmed(id: int, confirmedAt: int, processToConfirm: Option<int>, source: Source)
    | WriteFinalized(id: int, finalizedAt: int, confirmToFinalize: Option<int>, source: Source)
    | WriteFailed(id: int, verdict: Classification, landedSlot: Option<i64>, failedProcessedAt: Option<int>,
                  failedSubmitToProcess: Option<int>, failedAt: int)
  {
    /** The stage the write puts its row in. */
    function Stage(): Stage {
      match this
      case WriteProcessed(_, _, _, _, _) => Processed
      case WriteConfirmed(_, _, _, _) => Confirmed
      case WriteFinalized(_, _, _, _) => Finalized
      case WriteFailed(_, _, _, _, _, _) => Failed
    }
  }

  function Coalesce<T>(a: Option<T>, b: Option<T>): Option<T> {
    if a.Some? then a else b
  }

  /** The column assignments of `persist`. */
  function PersistRow(row: Row, w: Write): Row {
    match w
    case WriteProcessed(_, at, landed, ms, source) =>
      row.(status := Processed, processedAt := Some(at), landedSlot := Some(landed),
           submitToProcess := ms, processedSource := Some(source))
    case WriteConfirmed(_, at, ms, source) =>
      row.(status := Confirmed, confirmedAt := Some(at), processToConfirm := ms, confirmedSource := Some(source))
    case WriteFinalized(_, at, ms, source) =>
      row.(status := Finalized, finalizedAt := Some(at), confirmToFinalize := ms, finalizedSource := Some(source))
    case WriteFailed(_, verdict, landed, processedAt, ms, failedAt) =>
      row.(status := Failed, failure := Some(verdict), landedSlot := Coalesce(landed, row.landedSlot),
           processedAt := Coalesce(processedAt, row.processedAt),
           submitToProcess := Coalesce(ms, row.submitToProcess),
           finalizedAt := Coalesce(row.finalizedAt, Some(failedAt)))
  }

  function PersistAll(row: Row, ws: seq<Write>): Row {
    if ws == [] then row else PersistRow(PersistAll(row, ws[..|ws| - 1]), ws[|ws| - 1])
  }

  type Table = map<int, Row>

  /** `UPDATE ... WHERE id = ?`: nothing happens when there is no such row. */
  function Persist(table: Table, w: Write): Table {
    if w.id in table then table[w.id := PersistRow(table[w.id], w)] else table
  }

  function SlotColumn(s: Option<u64>): Option<i64> {
    match s case None => None case Some(v) => Some(AsI64(v))
  }

  function SlotValue(s: Option<i64>): Option<u64> {
    match s case None => None case Some(v) => Some(AsU64(v))
  }

  /** The row and the record that `record_submission` creates: one slot fills both slot columns. */
  function NewRow(s: Submission, p50: Option<u64>, p75: Option<u64>): Row {
    Row(s.memoSignature, AsI64(s.blockhashFetchedAtSlot), AsI64(s.blockhashFetchedAtSlot), AsI64(s.tipLamports),
        SlotColumn(p50), SlotColumn(p75), Submitted, s.submittedAt, None, None, None, None, None, None, None,
        None, None, None, None, None)
  }

  function NewPending(s: Submission, p50: Option<u64>, p75: Option<u64>): Pending {
    Pending(s.memoSignature, Submitted, None, s.blockhashFetchedAtSlot, s.blockhashFetchedAtSlot, s.submittedAt,
            None, None, s.tipLamports, p50, p75, None)
  }

  /** The record `hydrate` rebuilds from a row. */
  function FromRow(row: Row): Pending {
    Pending(row.memoSignature, row.status, SlotValue(row.landedSlot), AsU64(row.submittedSlot),
            AsU64(row.blockhashFetchedAtSlot), row.submittedAt, row.processedAt, row.confirmedAt,
            AsU64(row.tipLamports), SlotValue(row.tipP50), SlotValue(row.tipP75), row.jitoInflightStatus)
  }

  // ---------------------------------------------------------------------------
  // Transitions of one bundle, by inspection of its own record
  // ---------------------------------------------------------------------------

  /** What becomes of a tracked bundle (nothing left once it is terminal) and what is written. */
  datatype Effect = Effect(after: Option<Pending>, writes: seq<Write>)

  function Keep(p: Pending): Effect {
    Effect(Some(p), [])
  }

  function Processing(id: int, p: Pending, slot: u64, at: int, source: Source): Effect {
    if !p.state.Submitted? then Keep(p)
    else Effect(Some(p.(state := Processed, processedAt := Some(at), landedSlot := Some(slot))),
                [WriteProcessed(id, at, AsI64(slot), Some(at - p.submittedAt), source)])
  }

  function Confirming(id: int, p: Pending, at: int, source: Source): Effect {
    if !p.state.Processed? then Keep(p)
    else Effect(Some(p.(state := Confirmed, confirmedAt := Some(at))),
                [WriteConfirmed(id, at, Since(p.processedAt, at), source)])
  }

  function Finalizing(id: int, p: Pending, at: int, source: Source): Effect {
    if !p.state.Processed? && !p.state.Confirmed? then Keep(p)
    else Effect(None, [WriteFinalized(id, at, Since(p.confirmedAt, at), source)])
  }

  function FailingLanded(id: int, p: Pending, verdict: Classification, slot: u64, at: int): Effect {
    if !p.state.Submitted? && !p.state.Processed? then Keep(p)
    else Effect(None, [WriteFailed(id, verdict, Some(AsI64(slot)), Some(at), Some(at - p.submittedAt), at)])
  }

  function Since(start: Option<int>, at: int): Option<int> {
    match start case None => None case Some(t) => Some(at - t)
  }

  /** A stream event, applied by scanning: each bundle looks at its own landed slot and signature. */
  function OnEvent(rules: Interpreter, id: int, p: Pending, e: StreamEvent): Effect {
    match e
    case Slot(n, status, at) =>
      if p.landedSlot.None? || p.landedSlot.value > n then Keep(p)
      else if status.SlotConfirmed? then Confirming(id, p, at, FromStream)
      else if status.SlotFinalized? then Finalizing(id, p, at, FromStream)
      else Keep(p)
    case TxStatus(signature, slot, err, at) =>
      if p.memoSignature != signature then Keep(p)
      else if err.None? then Processing(id, p, slot, at, FromStream)
      else FailingLanded(id, p, Classify(rules, OnChainError(err.value, slot)), slot, at)
  }

  /** Which bundles a sweep times out, and the verdict it gives them. */
  predicate TimedOut(timeoutSlots: u64, last: u64, p: Pending) {
    p.state.Submitted? && SaturatingSub(last, p.blockhashFetchedAtSlot) > timeoutSlots
  }

  function SweepEvidence(p: Pending, last: u64): Evidence {
    NeverLanded(p.submittedSlot, p.blockhashFetchedAtSlot, last, p.tipLamports, p.tipP50, p.tipP75,
                FromStatusStr(p.jitoInflight))
  }

  datatype SigStatus = SigStatus(slot: u64, confirmation: Stage, errHex: Option<string>) {
    /** `confirmation` is one of the three commitment levels. */
    predicate Valid() {
      confirmation.Processed? || confirmation.Confirmed? || confirmation.Finalized?
    }
  }

  type Status = s: SigStatus | s.Valid() witness SigStatus(0, Processed, None)

  /** A further transition of the same bundle, skipped once it is terminal. */
  function ThenConfirming(e: Effect, id: int, at: int, source: Source): Effect {
    match e.after
    case None => e
    case Some(p) => var f := Confirming(id, p, at, source); Effect(f.after, e.writes + f.writes)
  }

  function ThenFinalizing(e: Effect, id: int, at: int, source: Source): Effect {
    match e.after
    case None => e
    case Some(p) => var f := Finalizing(id, p, at, source); Effect(f.after, e.writes + f.writes)
  }

  /** One iteration of `reconcile` on a tracked bundle: `snapshot` is the stage its row had when
      the pass read the table. */
  function Reconciling(rules: Interpreter, id: int, p: Pending, snapshot: Stage, st: Status, now: int): Effect {
    if st.errHex.Some? then
      Effect(None, [WriteFailed(id, Classify(rules, OnChainError(st.errHex.value, st.slot)),
                                Some(AsI64(st.slot)), Some(now), Some(now - p.submittedAt), now)])
    else
      var target, seen := st.confirmation.Rank(), snapshot.Rank();
      var e := if target >= 1 && seen < 1 then Processing(id, p, st.slot, now, FromReconcile) else Keep(p);
      var e := if target >= 2 && seen < 2 then ThenConfirming(e, id, now, FromReconcile) else e;
      if target >= 3 && seen < 3 then ThenFinalizing(e, id, now, FromReconcile) else e
  }
}
