/** crates/lifecycle: the whole tracker, read off the table. What an operation does to a row is said
    column by column, from the row itself and the slot clock; memory, indices and writes do not appear. */
module LifecycleColumns {
  import opened Wrappers
  import opened Numbers
  import opened StreamEvents
  import opened Failure
  import opened LifecycleRows
  import opened LifecycleModel
  import opened LifecycleRecovery
  import opened LifecycleTraces

  // ---------------------------------------------------------------------------
  // Columns
  // ---------------------------------------------------------------------------

  function AsProcessed(row: Row, slot: u64, at: int, source: Source): Row {
    row.(status := Processed, processedAt := Some(at), landedSlot := Some(AsI64(slot)),
         submitToProcess := Some(at - row.submittedAt), processedSource := Some(source))
  }

  function AsConfirmed(row: Row, at: int, source: Source): Row {
    row.(status := Confirmed, confirmedAt := Some(at), processToConfirm := Elapsed(row.processedAt, Some(at)),
         confirmedSource := Some(source))
  }

  function AsFinalized(row: Row, at: int, source: Source): Row {
    row.(status := Finalized, finalizedAt := Some(at), confirmToFinalize := Elapsed(row.confirmedAt, Some(at)),
         finalizedSource := Some(source))
  }

  /** A failure keeps the first time at which the row was finished. */
  function AsFailed(row: Row, verdict: Classification, at: int): Row {
    row.(status := Failed, failure := Some(verdict),
         finalizedAt := if row.finalizedAt.Some? then row.finalizedAt else Some(at))
  }

  /** A failure on the chain has a slot and a time of its own; the first delta is taken while the bundle
      is tracked. */
  function AsFailedOnChain(row: Row, verdict: Classification, slot: u64, at: int): Row {
    AsFailed(row, verdict, at).(
      landedSlot := Some(AsI64(slot)), processedAt := Some(at),
      submitToProcess := if row.status.Open() then Some(at - row.submittedAt) else row.submitToProcess)
  }

  predicate LandedBy(row: Row, n: u64) {
    row.landedSlot.Some? && AsU64(row.landedSlot.value) <= n
  }

  function AfterEvent(rules: Interpreter, row: Row, e: StreamEvent): Row {
    match e
    case Slot(n, SlotConfirmed, at) =>
      if row.status.Processed? && LandedBy(row, n) then AsConfirmed(row, at, FromStream) else row
    case Slot(n, SlotFinalized, at) =>
      if (row.status.Processed? || row.status.Confirmed?) && LandedBy(row, n) then AsFinalized(row, at, FromStream)
      else row
    case Slot(_, _, _) => row
    case TxStatus(signature, slot, err, at) =>
      if signature != row.memoSignature then row
      else if err.None? then (if row.status.Submitted? then AsProcessed(row, slot, at, FromStream) else row)
      else if row.status.Submitted? || row.status.Processed? then
        AsFailedOnChain(row, Classify(rules, OnChainError(err.value, slot)), slot, at)
      else row
  }

  /** Three steps, each made if the status asks for it, the pass has not read that stage already, and the row
      is where the step begins. */
  function AfterStatus(row: Row, snapshot: Stage, st: Status, now: int): Row {
    var reached, read := st.confirmation.Rank(), snapshot.Rank();
    var row := if 1 <= reached && read < 1 && row.status.Submitted? then AsProcessed(row, st.slot, now, FromReconcile)
      else row;
    var row := if 2 <= reached && read < 2 && row.status.Processed? then AsConfirmed(row, now, FromReconcile) else row;
    if 3 <= reached && read < 3 && (row.status.Processed? || row.status.Confirmed?) then
      AsFinalized(row, now, FromReconcile)
    else row
  }

  /** Still Submitted, and the blockhash older than the limit. */
  predicate OverAge(cfg: Config, clock: u64, row: Row) {
    row.status.Submitted? && clock > AsU64(row.blockhashFetchedAtSlot) + cfg.timeoutSlots
  }

  function SweepVerdict(row: Row, clock: u64): Classification {
    ClassifyNeverLanded(AsU64(row.submittedSlot), AsU64(row.blockhashFetchedAtSlot), clock, AsU64(row.tipLamports),
                        SlotValue(row.tipP50), SlotValue(row.tipP75), FromStatusStr(row.jitoInflightStatus))
  }

  /** A row after an operation, from the row and the clock. */
  function NextRow(cfg: Config, clock: u64, id: int, row: Row, op: Op): Row {
    match op
    case Submit(_, _, _) => row
    case Crash => row
    case JitoStatus(i, status) => if i == id then row.(jitoInflightStatus := Some(status)) else row
    case Reject(i, raw, now) => if i == id then AsFailed(row, cfg.rules.rejection(raw), now) else row
    case Event(e) => AfterEvent(cfg.rules, row, e)
    case Sweep(at) => if OverAge(cfg, clock, row) then AsFailed(row, SweepVerdict(row, clock), at(id)) else row
    case ApplyStatus(i, snapshot, st, now) =>
      if i != id then row
      else if st.errHex.Some? then
        AsFailedOnChain(row, Classify(cfg.rules, OnChainError(st.errHex.value, st.slot)), st.slot, now)
      else AfterStatus(row, snapshot, st, now)
  }

  // ---------------------------------------------------------------------------
  // The transitions, column by column
  // ---------------------------------------------------------------------------

  /** What is left in memory and in the table after the writes made so far. */
  ghost predicate Stands(row: Row, e: Effect, row': Row) {
    && PersistAll(row, e.writes) == row'
    && e.after == if row'.status.Open() then Some(FromRow(row')) else None
  }

  lemma ProcessingStands(id: int, row: Row, slot: u64, at: int, source: Source)
    requires row.status.Open()
    ensures Stands(row, Processing(id, FromRow(row), slot, at, source),
                   if row.status.Submitted? then AsProcessed(row, slot, at, source) else row)
  {
    if row.status.Submitted? {
      PersistOne(row, Processing(id, FromRow(row), slot, at, source).writes[0]);
    }
  }

  lemma ConfirmingStands(id: int, row: Row, at: int, source: Source)
    requires row.status.Open()
    ensures Stands(row, Confirming(id, FromRow(row), at, source),
                   if row.status.Processed? then AsConfirmed(row, at, source) else row)
  {
    if row.status.Processed? {
      PersistOne(row, Confirming(id, FromRow(row), at, source).writes[0]);
    }
  }

  lemma FinalizingStands(id: int, row: Row, at: int, source: Source)
    requires row.status.Open()
    ensures Stands(row, Finalizing(id, FromRow(row), at, source),
                   if row.status.Processed? || row.status.Confirmed? then AsFinalized(row, at, source) else row)
  {
    if row.status.Processed? || row.status.Confirmed? {
      PersistOne(row, Finalizing(id, FromRow(row), at, source).writes[0]);
    }
  }

  lemma ThenConfirmingStands(row: Row, e: Effect, id: int, at: int, source: Source, row': Row)
    requires Stands(row, e, row')
    ensures Stands(row, ThenConfirming(e, id, at, source),
                   if row'.status.Processed? then AsConfirmed(row', at, source) else row')
  {
    if e.after.Some? {
      ConfirmingStands(id, row', at, source);
      PersistConcat(row, e.writes, Confirming(id, FromRow(row'), at, source).writes);
    }
  }

  lemma ThenFinalizingStands(row: Row, e: Effect, id: int, at: int, source: Source, row': Row)
    requires Stands(row, e, row')
    ensures Stands(row, ThenFinalizing(e, id, at, source),
                   if row'.status.Processed? || row'.status.Confirmed? then AsFinalized(row', at, source) else row')
  {
    if e.after.Some? {
      FinalizingStands(id, row', at, source);
      PersistConcat(row, e.writes, Finalizing(id, FromRow(row'), at, source).writes);
    }
  }

  lemma ReconcilingStands(rules: Interpreter, id: int, row: Row, snapshot: Stage, st: Status, now: int)
    requires row.status.Open() && st.errHex.None?
    ensures Stands(row, Reconciling(rules, id, FromRow(row), snapshot, st, now), AfterStatus(row, snapshot, st, now))
  {
    var p, reached, read := FromRow(row), st.confirmation.Rank(), snapshot.Rank();
    ProcessingStands(id, row, st.slot, now, FromReconcile);
    var e := if reached >= 1 && read < 1 then Processing(id, p, st.slot, now, FromReconcile) else Keep(p);
    var row1 := if 1 <= reached && read < 1 && row.status.Submitted? then AsProcessed(row, st.slot, now, FromReconcile)
      else row;
    assert Stands(row, e, row1);
    FurtherMarksStand(row, e, row1, id, now, reached >= 2 && read < 2, reached >= 3 && read < 3);
  }

  lemma FurtherMarksStand(row: Row, e: Effect, row1: Row, id: int, now: int, confirms: bool, finalizes: bool)
    requires Stands(row, e, row1)
    ensures var e' := if confirms then ThenConfirming(e, id, now, FromReconcile) else e;
            var row2 := if confirms && row1.status.Processed? then AsConfirmed(row1, now, FromReconcile) else row1;
            Stands(row, if finalizes then ThenFinalizing(e', id, now, FromReconcile) else e',
                   if finalizes && (row2.status.Processed? || row2.status.Confirmed?) then
                     AsFinalized(row2, now, FromReconcile)
                   else row2)
  {
    ThenConfirmingStands(row, e, id, now, FromReconcile, row1);
    var e' := if confirms then ThenConfirming(e, id, now, FromReconcile) else e;
    var row2 := if confirms && row1.status.Processed? then AsConfirmed(row1, now, FromReconcile) else row1;
    ThenFinalizingStands(row, e', id, now, FromReconcile, row2);
  }

  lemma EventStands(rules: Interpreter, id: int, row: Row, e: StreamEvent)
    requires RowOk(row) && row.status.Open()
    ensures PersistAll(row, OnEvent(rules, id, FromRow(row), e).writes) == AfterEvent(rules, row, e)
  {
    match e
    case Slot(_, _, at) =>
      ConfirmingStands(id, row, at, FromStream);
      FinalizingStands(id, row, at, FromStream);
    case TxStatus(_, slot, err, at) =>
      if err.None? {
        ProcessingStands(id, row, slot, at, FromStream);
      } else {
        FailingStands(id, row, Classify(rules, OnChainError(err.value, slot)), slot, at);
      }
  }

  lemma FailingStands(id: int, row: Row, verdict: Classification, slot: u64, at: int)
    requires RowOk(row) && row.status.Open()
    ensures PersistAll(row, FailingLanded(id, FromRow(row), verdict, slot, at).writes) ==
            if row.status.Submitted? || row.status.Processed? then AsFailedOnChain(row, verdict, slot, at) else row
  {
    if row.status.Submitted? || row.status.Processed? {
      PersistOne(row, FailingLanded(id, FromRow(row), verdict, slot, at).writes[0]);
    }
  }

  lemma FailedColumns(row: Row, w: Write)
    requires w.WriteFailed?
    ensures w.landedSlot.None? && w.failedProcessedAt.None? && w.failedSubmitToProcess.None? ==>
              PersistAll(row, [w]) == AsFailed(row, w.verdict, w.failedAt)
    ensures forall slot: u64 ::
              w.landedSlot == Some(AsI64(slot)) && w.failedProcessedAt == Some(w.failedAt)
              && w.failedSubmitToProcess == (if row.status.Open() then Some(w.failedAt - row.submittedAt) else None) ==>
                PersistAll(row, [w]) == AsFailedOnChain(row, w.verdict, slot, w.failedAt)
  {
    PersistOne(row, w);
  }

  lemma TrackedRowStep(cfg: Config, m: Model, op: Op, id: int)
    requires Inv(m) && id in m.pending && !op.Submit? && !op.Crash?
    ensures RowStep(cfg, m, op, id) == NextRow(cfg, m.clock, id, m.table[id], op)
  {
    var row := m.table[id];
    assert row.status.Open() && m.pending[id] == FromRow(row);
    match op
    case Event(e) => EventStands(cfg.rules, id, row, e);
    case ApplyStatus(_, snapshot, st, now) =>
      if st.errHex.None? {
        ReconcilingStands(cfg.rules, id, row, snapshot, st, now);
      } else if op.id == id {
        FailedColumns(row, WritesFor(cfg, m, op, id)[0]);
      }
    case Reject(i, _, _) =>
      if i == id {
        FailedColumns(row, WritesFor(cfg, m, op, id)[0]);
      }
    case Sweep(_) =>
      if OverAge(cfg, m.clock, row) {
        FailedColumns(row, WritesFor(cfg, m, op, id)[0]);
      }
    case JitoStatus(_, _) =>
  }

  lemma FinishedRowStep(cfg: Config, m: Model, op: Op, id: int)
    requires Inv(m) && id in m.table && id !in m.pending && !op.Submit? && !op.Crash?
    ensures RowStep(cfg, m, op, id) == NextRow(cfg, m.clock, id, m.table[id], op)
  {
    var ws := WritesFor(cfg, m, op, id);
    assert !m.table[id].status.Open();
    if ws != [] {
      assert ws == [ws[0]];
      FailedColumns(m.table[id], ws[0]);
    }
  }

  lemma RowStepIs(cfg: Config, m: Model, op: Op, id: int)
    requires Inv(m) && id in m.table && !op.Submit? && !op.Crash?
    ensures RowStep(cfg, m, op, id) == NextRow(cfg, m.clock, id, m.table[id], op)
  {
    if id in m.pending {
      TrackedRowStep(cfg, m, op, id);
    } else {
      FinishedRowStep(cfg, m, op, id);
    }
  }

  /** Every operation does to every row what its columns and the clock say. */
  lemma RowsSpeakForThemselves(cfg: Config, m: Model, op: Op, id: int)
    requires Inv(m) && id in m.table
    ensures var m' := Step(cfg, m, op);
            id in m'.table && m'.table[id] == NextRow(cfg, m.clock, id, m.table[id], op)
  {
    if !op.Submit? && !op.Crash? {
      StepAt(cfg, m, op);
      RowStepIs(cfg, m, op, id);
    }
  }

  // ---------------------------------------------------------------------------
  // The table by itself
  // ---------------------------------------------------------------------------

  /** All of the tracker that is not derived: the table, the next id, and the slot clock. */
  datatype Disk = Disk(table: Table, clock: u64, nextId: int)

  function DiskOf(m: Model): Disk {
    Disk(m.table, m.clock, m.nextId)
  }

  ghost function DiskStep(cfg: Config, d: Disk, op: Op): Disk {
    match op
    case Submit(s, p50, p75) => Disk(d.table[d.nextId := NewRow(s, p50, p75)], d.clock, d.nextId + 1)
    case Crash => d.(clock := HydratedClock(d.table))
    case _ =>
      Disk(map id | id in d.table :: NextRow(cfg, d.clock, id, d.table[id], op), NextClock(d.clock, op), d.nextId)
  }

  ghost function DiskRun(cfg: Config, d: Disk, ops: seq<Op>): Disk
    decreases |ops|
  {
    if ops == [] then d else DiskRun(cfg, DiskStep(cfg, d, ops[0]), ops[1..])
  }

  lemma DiskStepIs(cfg: Config, m: Model, op: Op)
    requires Inv(m)
    ensures DiskOf(Step(cfg, m, op)) == DiskStep(cfg, DiskOf(m), op)
  {
    if !op.Submit? && !op.Crash? {
      var m' := Step(cfg, m, op);
      StepAt(cfg, m, op);
      forall id | id in m.table ensures m'.table[id] == NextRow(cfg, m.clock, id, m.table[id], op) {
        RowsSpeakForThemselves(cfg, m, op, id);
      }
      assert m'.table == DiskStep(cfg, DiskOf(m), op).table;
    }
  }

  /** The records in memory add nothing: over any run the table is what it would be if every operation
      went by the rows alone. */
  lemma {:induction false} MemoryAddsNothing(cfg: Config, m: Model, ops: seq<Op>)
    requires Inv(m)
    ensures DiskOf(Run(cfg, m, ops)) == DiskRun(cfg, DiskOf(m), ops)
    decreases |ops|
  {
    if ops != [] {
      DiskStepIs(cfg, m, ops[0]);
      StepKeepsInv(cfg, m, ops[0]);
      MemoryAddsNothing(cfg, Step(cfg, m, ops[0]), ops[1..]);
    }
  }

  // ---------------------------------------------------------------------------
  // Where the columns of a row come from
  // ---------------------------------------------------------------------------

  /** The operation that landed a bundle: a success on the stream or in a reconcile pass, whose slot and
      time are in the row. */
  predicate Lands(op: Op, id: int, row: Row) {
    match op
    case Event(TxStatus(signature, slot, None, at)) =>
      && signature == row.memoSignature && row.processedAt == Some(at) && row.landedSlot == Some(AsI64(slot))
      && row.processedSource == Some(FromStream)
    case ApplyStatus(i, _, st, now) =>
      && i == id && st.errHex.None? && row.processedAt == Some(now) && row.landedSlot == Some(AsI64(st.slot))
      && row.processedSource == Some(FromReconcile)
    case _ => false
  }

  /** The one that confirmed it: an update for its slot or a later one, or a status as high as that. */
  predicate Confirms(op: Op, id: int, row: Row) {
    match op
    case Event(Slot(n, SlotConfirmed, at)) =>
      LandedBy(row, n) && row.confirmedAt == Some(at) && row.confirmedSource == Some(FromStream)
    case ApplyStatus(i, _, st, now) =>
      && i == id && st.errHex.None? && (st.confirmation.Confirmed? || st.confirmation.Finalized?)
      && row.confirmedAt == Some(now) && row.confirmedSource == Some(FromReconcile)
    case _ => false
  }

  predicate Finalizes(op: Op, id: int, row: Row) {
    match op
    case Event(Slot(n, SlotFinalized, at)) =>
      LandedBy(row, n) && row.finalizedAt == Some(at) && row.finalizedSource == Some(FromStream)
    case ApplyStatus(i, _, st, now) =>
      && i == id && st.errHex.None? && st.confirmation.Finalized?
      && row.finalizedAt == Some(now) && row.finalizedSource == Some(FromReconcile)
    case _ => false
  }

  /** The one whose verdict a failed row holds, with the slot and time of an error on the chain. */
  predicate Fails(cfg: Config, op: Op, id: int, row: Row) {
    match op
    case Reject(i, raw, _) => i == id && row.failure == Some(cfg.rules.rejection(raw))
    case Event(TxStatus(signature, slot, Some(hex), at)) =>
      && signature == row.memoSignature && row.failure == Some(ClassifyOnChain(cfg.rules, hex))
      && row.landedSlot == Some(AsI64(slot)) && row.processedAt == Some(at)
    case ApplyStatus(i, _, st, now) =>
      && i == id && st.errHex.Some? && row.failure == Some(ClassifyOnChain(cfg.rules, st.errHex.value))
      && row.landedSlot == Some(AsI64(st.slot)) && row.processedAt == Some(now)
    case Sweep(at) =>
      row.failure.Some? && row.finalizedAt == Some(at(id)) && row.landedSlot.None? && row.processedAt.None?
    case _ => false
  }

  ghost predicate LandingIn(ops: seq<Op>, id: int, row: Row) {
    exists i :: 0 <= i < |ops| && Lands(ops[i], id, row)
  }

  ghost predicate ConfirmingIn(ops: seq<Op>, id: int, row: Row) {
    exists i :: 0 <= i < |ops| && Confirms(ops[i], id, row)
  }

  ghost predicate FinalizingIn(ops: seq<Op>, id: int, row: Row) {
    exists i :: 0 <= i < |ops| && Finalizes(ops[i], id, row)
  }

  ghost predicate FailingIn(cfg: Config, ops: seq<Op>, id: int, row: Row) {
    exists i :: 0 <= i < |ops| && Fails(cfg, ops[i], id, row)
  }

  /** Every stage a row has reached, with its time, slot and source, or its verdict, goes back to an
      operation that reported it. */
  ghost predicate Accounted(cfg: Config, ops: seq<Op>, id: int, row: Row) {
    && (Landed(row.status) ==> LandingIn(ops, id, row))
    && (row.status.Confirmed? || (row.status.Finalized? && row.confirmedAt.Some?) ==> ConfirmingIn(ops, id, row))
    && (row.status.Finalized? ==> FinalizingIn(ops, id, row))
    && (row.status.Failed? ==> FailingIn(cfg, ops, id, row))
  }

  /** An operation that leaves a bundle landed has landed it, or leaves its landing as it was. */
  lemma LandsOrStays(cfg: Config, clock: u64, op: Op, id: int, row: Row)
    requires RowOk(row)
    ensures var row' := NextRow(cfg, clock, id, row, op);
            Landed(row'.status) ==>
              if Landed(row.status) then
                && row'.memoSignature == row.memoSignature && row'.processedAt == row.processedAt
                && row'.landedSlot == row.landedSlot && row'.processedSource == row.processedSource
              else Lands(op, id, row')
  {
  }

  lemma LandingNext(cfg: Config, clock: u64, ops: seq<Op>, op: Op, id: int, row: Row)
    requires RowOk(row) && (Landed(row.status) ==> LandingIn(ops, id, row))
    ensures var row' := NextRow(cfg, clock, id, row, op);
            Landed(row'.status) ==> LandingIn(ops + [op], id, row')
  {
    var row' := NextRow(cfg, clock, id, row, op);
    LandsOrStays(cfg, clock, op, id, row);
    if Landed(row'.status) {
      if Landed(row.status) {
        var i :| 0 <= i < |ops| && Lands(ops[i], id, row);
        assert Lands((ops + [op])[i], id, row');
      } else {
        assert Lands((ops + [op])[|ops|], id, row');
      }
    }
  }

  lemma ConfirmingNext(cfg: Config, clock: u64, ops: seq<Op>, op: Op, id: int, row: Row)
    requires RowOk(row)
    requires row.status.Confirmed? || (row.status.Finalized? && row.confirmedAt.Some?) ==> ConfirmingIn(ops, id, row)
    ensures var row' := NextRow(cfg, clock, id, row, op);
            row'.status.Confirmed? || (row'.status.Finalized? && row'.confirmedAt.Some?) ==>
              ConfirmingIn(ops + [op], id, row')
  {
    var row' := NextRow(cfg, clock, id, row, op);
    if row'.status.Confirmed? || (row'.status.Finalized? && row'.confirmedAt.Some?) {
      if row.status.Confirmed? || row.status.Finalized? {
        var i :| 0 <= i < |ops| && Confirms(ops[i], id, row);
        assert Confirms((ops + [op])[i], id, row');
      } else {
        assert Confirms((ops + [op])[|ops|], id, row');
      }
    }
  }

  lemma FinalizingNext(cfg: Config, clock: u64, ops: seq<Op>, op: Op, id: int, row: Row)
    requires RowOk(row) && (row.status.Finalized? ==> FinalizingIn(ops, id, row))
    ensures var row' := NextRow(cfg, clock, id, row, op);
            row'.status.Finalized? ==> FinalizingIn(ops + [op], id, row')
  {
    var row' := NextRow(cfg, clock, id, row, op);
    if row'.status.Finalized? {
      if row.status.Finalized? {
        var i :| 0 <= i < |ops| && Finalizes(ops[i], id, row);
        assert Finalizes((ops + [op])[i], id, row');
      } else {
        assert Finalizes((ops + [op])[|ops|], id, row');
      }
    }
  }

  lemma FailingNext(cfg: Config, clock: u64, ops: seq<Op>, op: Op, id: int, row: Row)
    requires RowOk(row) && (row.status.Failed? ==> FailingIn(cfg, ops, id, row))
    ensures var row' := NextRow(cfg, clock, id, row, op);
            row'.status.Failed? ==> FailingIn(cfg, ops + [op], id, row')
  {
    var row' := NextRow(cfg, clock, id, row, op);
    if row'.status.Failed? {
      if Fails(cfg, op, id, row') {
        assert Fails(cfg, (ops + [op])[|ops|], id, row');
      } else {
        var i :| 0 <= i < |ops| && Fails(cfg, ops[i], id, row);
        assert Fails(cfg, (ops + [op])[i], id, row');
      }
    }
  }

  /** After any run every row is accounted for. */
  lemma {:induction false} ColumnsAreAccountedFor(cfg: Config, ops: seq<Op>, id: int)
    requires id in Run(cfg, EMPTY, ops).table
    ensures Accounted(cfg, ops, id, Run(cfg, EMPTY, ops).table[id])
  {
    if ops != [] {
      var before, op := ops[..|ops| - 1], ops[|ops| - 1];
      var m := Run(cfg, EMPTY, before);
      RunKeepsInv(cfg, EMPTY, before);
      RunSnoc(cfg, EMPTY, before, op);
      assert ops == before + [op];
      if id in m.table {
        ColumnsAreAccountedFor(cfg, before, id);
        RowsSpeakForThemselves(cfg, m, op, id);
        LandingNext(cfg, m.clock, before, op, id, m.table[id]);
        ConfirmingNext(cfg, m.clock, before, op, id, m.table[id]);
        FinalizingNext(cfg, m.clock, before, op, id, m.table[id]);
        FailingNext(cfg, m.clock, before, op, id, m.table[id]);
      } else {
        NewRowsAreSubmitted(cfg, m, op, id);
      }
    }
  }

  // ---------------------------------------------------------------------------
  // The verdicts that are stored
  // ---------------------------------------------------------------------------

  /** An error printed by the stream and the same one printed for reconcile leave the same verdict in the row
      of a bundle that has not got past Processed, and which one depends on what its bytes decode to. */
  lemma OneVerdictStored(cfg: Config, m: Model, id: int, bytes: seq<u8>, slot: u64, at: int, snapshot: Stage,
                         st: Status, now: int)
    requires Inv(m) && id in m.table && (m.table[id].status.Submitted? || m.table[id].status.Processed?)
    requires st.errHex == Some(Hex(bytes))
    ensures var event := TxStatus(m.table[id].memoSignature, slot, Some("0x" + Hex(bytes)), at);
            var seen := Step(cfg, m, Event(event)).table;
            var asked := Step(cfg, m, ApplyStatus(id, snapshot, st, now)).table;
            && id in seen && id in asked
            && seen[id].status.Failed? && asked[id].status.Failed?
            && seen[id].failure == asked[id].failure && seen[id].failure.Some?
            && OnChainVerdict(if bytes == [] then None else cfg.rules.decode(bytes), seen[id].failure.value)
  {
    RowsSpeakForThemselves(cfg, m, Event(TxStatus(m.table[id].memoSignature, slot, Some("0x" + Hex(bytes)), at)), id);
    RowsSpeakForThemselves(cfg, m, ApplyStatus(id, snapshot, st, now), id);
    OneVerdictPerError(cfg.rules, bytes, slot, st.slot);
  }

  /** A failure reported from outside, a rejection or an error found by reconcile, is stored whatever the stage
      of the row: with the verdict of the rejection rules, or that of the error. */
  lemma UncheckedVerdicts(cfg: Config, m: Model, id: int, raw: string, snapshot: Stage, st: Status, now: int)
    requires Inv(m) && id in m.table
    ensures var t := Step(cfg, m, Reject(id, raw, now)).table;
            id in t && t[id].status.Failed? && t[id].failure == Some(cfg.rules.rejection(raw))
    ensures st.errHex.Some? ==>
              var t := Step(cfg, m, ApplyStatus(id, snapshot, st, now)).table;
              && id in t && t[id].status.Failed? && t[id].failure.Some?
              && OnChainVerdict(ErrorIn(cfg.rules, st.errHex.value), t[id].failure.value)
  {
    RowsSpeakForThemselves(cfg, m, Reject(id, raw, now), id);
    RowsSpeakForThemselves(cfg, m, ApplyStatus(id, snapshot, st, now), id);
    if st.errHex.Some? {
      OnChainVerdicts(cfg.rules, st.errHex.value, st.slot);
    }
  }
}
