/** crates/lifecycle: the tracker as a state machine over values. Every operation acts on each
    bundle by looking at that bundle alone; the slot indices of the real tracker do not appear. */
module LifecycleModel {
  import opened Wrappers
  import opened Numbers
  import opened StreamEvents
  import opened Failure
  import opened LifecycleRows

  datatype Config = Config(rules: Interpreter, timeoutSlots: u64)

  /** Memory (`pending`, `clock`) and the database (`table`, and the next row id to hand out). */
  datatype Model = Model(pending: map<int, Pending>, clock: u64, table: Table, nextId: int)

  /** Clock readings arrive as arguments; a sweep reads the clock once for each bundle it fails. */
  datatype Op =
    | Submit(submission: Submission, p50: Option<u64>, p75: Option<u64>)
    | JitoStatus(id: int, status: string)
    | Reject(id: int, rawError: string, now: int)
    | Event(event: StreamEvent)
    | Sweep(at: int -> int)
    | ApplyStatus(id: int, snapshot: Stage, st: Status, now: int)
    | Crash

  const EMPTY: Model := Model(map[], 0, map[], 1)

  /** What an operation does to a tracked bundle. */
  function BundleStep(cfg: Config, clock: u64, id: int, p: Pending, op: Op): Effect {
    match op
    case Submit(_, _, _) => Keep(p)
    case JitoStatus(i, status) => if i == id then Keep(p.(jitoInflight := Some(status))) else Keep(p)
    case Reject(i, raw, now) =>
      if i != id then Keep(p)
      else Effect(None, [WriteFailed(id, Classify(cfg.rules, SubmitRejection(raw)), None, None, None, now)])
    case Event(e) => OnEvent(cfg.rules, id, p, e)
    case Sweep(at) =>
      if !TimedOut(cfg.timeoutSlots, clock, p) then Keep(p)
      else Effect(None, [WriteFailed(id, Classify(cfg.rules, SweepEvidence(p, clock)), None, None, None, at(id))])
    case ApplyStatus(i, snapshot, st, now) =>
      if i != id then Keep(p) else Reconciling(cfg.rules, id, p, snapshot, st, now)
    case Crash => Keep(p)
  }

  /** What it writes for an id that is not tracked: neither a rejection nor an error status checks. */
  function OrphanWrites(cfg: Config, id: int, op: Op): seq<Write> {
    match op
    case Reject(i, raw, now) =>
      if i != id then []
      else [WriteFailed(id, Classify(cfg.rules, SubmitRejection(raw)), None, None, None, now)]
    case ApplyStatus(i, _, st, now) =>
      if i != id || st.errHex.None? then []
      else [WriteFailed(id, Classify(cfg.rules, OnChainError(st.errHex.value, st.slot)),
                        Some(AsI64(st.slot)), Some(now), None, now)]
    case _ => []
  }

  function WritesFor(cfg: Config, m: Model, op: Op, id: int): seq<Write> {
    if id in m.pending then BundleStep(cfg, m.clock, id, m.pending[id], op).writes
    else OrphanWrites(cfg, id, op)
  }

  /** `record_jito_status` updates its column whatever the row's stage. */
  function JitoColumn(row: Row, op: Op, id: int): Row {
    if op.JitoStatus? && op.id == id then row.(jitoInflightStatus := Some(op.status)) else row
  }

  function RowStep(cfg: Config, m: Model, op: Op, id: int): Row
    requires id in m.table
  {
    PersistAll(JitoColumn(m.table[id], op, id), WritesFor(cfg, m, op, id))
  }

  function NextClock(clock: u64, op: Op): u64 {
    if op.Event? && op.event.Slot? then Max(clock, op.event.slot) else clock
  }

  ghost function Step(cfg: Config, m: Model, op: Op): Model {
    match op
    case Submit(s, p50, p75) =>
      Model(m.pending[m.nextId := NewPending(s, p50, p75)], m.clock,
            m.table[m.nextId := NewRow(s, p50, p75)], m.nextId + 1)
    case Crash => m.(pending := HydratedPending(m.table), clock := HydratedClock(m.table))
    case _ =>
      Model(map id | id in m.pending && BundleStep(cfg, m.clock, id, m.pending[id], op).after.Some?
              :: BundleStep(cfg, m.clock, id, m.pending[id], op).after.value,
            NextClock(m.clock, op),
            map id | id in m.table :: RowStep(cfg, m, op, id),
            m.nextId)
  }

  ghost function Run(cfg: Config, m: Model, ops: seq<Op>): Model
    decreases |ops|
  {
    if ops == [] then m else Run(cfg, Step(cfg, m, ops[0]), ops[1..])
  }

  // ---------------------------------------------------------------------------
  // Hydration
  // ---------------------------------------------------------------------------

  function HydratedPending(table: Table): map<int, Pending> {
    map id | id in table && table[id].status.Open() :: FromRow(table[id])
  }

  /** The slots of a row that the rebuilt clock takes into account. */
  function RowSlot(row: Row): u64 {
    Max(SlotValue(row.landedSlot).GetOr(0), AsU64(row.submittedSlot))
  }

  ghost predicate IsHydratedClock(table: Table, c: u64) {
    && (forall id :: id in table && table[id].status.Open() ==> RowSlot(table[id]) <= c)
    && (c == 0 || exists id :: id in table && table[id].status.Open() && RowSlot(table[id]) == c)
  }

  /** The greatest slot in any open row, or 0 when there is none. */
  ghost function HydratedClock(table: Table): u64 {
    if exists c: u64 :: IsHydratedClock(table, c) then
      var c: u64 :| IsHydratedClock(table, c); c
    else 0
  }

  lemma HydratedClockIsUnique(table: Table, c: u64)
    requires IsHydratedClock(table, c)
    ensures HydratedClock(table) == c
  {
  }

  // ---------------------------------------------------------------------------
  // The invariant of every run
  // ---------------------------------------------------------------------------

  function Elapsed(a: Option<int>, b: Option<int>): Option<int> {
    if a.Some? && b.Some? then Some(b.value - a.value) else None
  }

  /** Whenever all three delta columns are filled they add up to the whole latency. */
  predicate Telescopes(row: Row) {
    row.submitToProcess.Some? && row.processToConfirm.Some? && row.confirmToFinalize.Some? ==>
      && row.finalizedAt.Some?
      && row.submitToProcess.value + row.processToConfirm.value + row.confirmToFinalize.value
         == row.finalizedAt.value - row.submittedAt
  }

  /** Which columns are filled at each stage, and how the deltas derive from the timestamps. */
  predicate RowOk(row: Row) {
    && row.submittedSlot == row.blockhashFetchedAtSlot
    && Telescopes(row)
    && (row.confirmedAt.None? ==> row.processToConfirm.None? && row.confirmToFinalize.None?)
    && (row.status.Open() ==> row.finalizedAt.None? && row.confirmToFinalize.None? && row.failure.None?)
    && (row.status.Submitted? ==> row.landedSlot.None? && row.processedAt.None? && row.submitToProcess.None?)
    && (row.status.Submitted? || row.status.Processed? ==> row.confirmedAt.None?)
    && (row.status.Confirmed? ==> row.confirmedAt.Some?)
    && (row.status.Processed? || row.status.Confirmed? || row.status.Finalized? ==>
          row.landedSlot.Some? && row.processedAt.Some?
              && row.submitToProcess == Some(row.processedAt.value - row.submittedAt))
    && (!row.status.Failed? ==>
          row.processToConfirm == Elapsed(row.processedAt, row.confirmedAt)
          && row.confirmToFinalize == Elapsed(row.confirmedAt, row.finalizedAt))
    && (row.status.Finalized? || row.status.Failed? ==> row.finalizedAt.Some?)
  }

  /** Memory holds exactly the open rows, as hydration would read them. */
  ghost predicate Mirrors(m: Model) {
    m.pending == HydratedPending(m.table)
  }

  ghost predicate Inv(m: Model) {
    && Mirrors(m)
    && (forall id :: id in m.table ==> id < m.nextId && RowOk(m.table[id]))
  }

  /** The effect of one transition on a well-kept row agrees with its effect in memory. */
  ghost predicate Tracks(row: Row, e: Effect) {
    var row' := PersistAll(row, e.writes);
    && RowOk(row')
    && (row'.status.Open() <==> e.after.Some?)
    && (e.after.Some? ==> e.after.value == FromRow(row'))
  }

  lemma PersistOne(row: Row, w: Write)
    ensures PersistAll(row, [w]) == PersistRow(row, w)
  {
  }

  lemma {:induction false} PersistConcat(row: Row, a: seq<Write>, b: seq<Write>)
    ensures PersistAll(row, a + b) == PersistAll(PersistAll(row, a), b)
  {
    if b == [] {
      assert a + b == a;
    } else {
      assert (a + b)[..|a + b| - 1] == a + b[..|b| - 1];
      PersistConcat(row, a, b[..|b| - 1]);
    }
  }

  lemma KeepTracks(row: Row)
    requires RowOk(row) && row.status.Open()
    ensures Tracks(row, Keep(FromRow(row)))
  {
  }

  lemma ProcessingTracks(id: int, row: Row, slot: u64, at: int, source: Source)
    requires RowOk(row) && row.status.Open()
    ensures Tracks(row, Processing(id, FromRow(row), slot, at, source))
  {
  }

  lemma ConfirmingTracks(id: int, row: Row, at: int, source: Source)
    requires RowOk(row) && row.status.Open()
    ensures Tracks(row, Confirming(id, FromRow(row), at, source))
  {
  }

  lemma FinalizingTracks(id: int, row: Row, at: int, source: Source)
    requires RowOk(row) && row.status.Open()
    ensures Tracks(row, Finalizing(id, FromRow(row), at, source))
  {
  }

  /** A failure keeps a row in order if it is open, or if it leaves the first delta alone. */
  lemma FailedWriteOk(row: Row, w: Write)
    requires RowOk(row) && w.WriteFailed?
    requires row.status.Open() || w.failedSubmitToProcess.None?
    ensures PersistAll(row, [w]) == PersistRow(row, w)
    ensures RowOk(PersistRow(row, w))
  {
  }

  lemma FailingLandedTracks(id: int, row: Row, verdict: Classification, slot: u64, at: int)
    requires RowOk(row) && row.status.Open()
    ensures Tracks(row, FailingLanded(id, FromRow(row), verdict, slot, at))
  {
  }

  lemma ThenConfirmingTracks(row: Row, e: Effect, id: int, at: int, source: Source)
    requires RowOk(row) && row.status.Open() && Tracks(row, e)
    ensures Tracks(row, ThenConfirming(e, id, at, source))
  {
    if e.after.Some? {
      var row' := PersistAll(row, e.writes);
      ConfirmingTracks(id, row', at, source);
      PersistConcat(row, e.writes, Confirming(id, FromRow(row'), at, source).writes);
    }
  }

  lemma ThenFinalizingTracks(row: Row, e: Effect, id: int, at: int, source: Source)
    requires RowOk(row) && row.status.Open() && Tracks(row, e)
    ensures Tracks(row, ThenFinalizing(e, id, at, source))
  {
    if e.after.Some? {
      var row' := PersistAll(row, e.writes);
      FinalizingTracks(id, row', at, source);
      PersistConcat(row, e.writes, Finalizing(id, FromRow(row'), at, source).writes);
    }
  }

  lemma EventTracks(rules: Interpreter, id: int, row: Row, e: StreamEvent)
    requires RowOk(row) && row.status.Open()
    ensures Tracks(row, OnEvent(rules, id, FromRow(row), e))
  {
    KeepTracks(row);
    match e
    case Slot(_, _, at) =>
      ConfirmingTracks(id, row, at, FromStream);
      FinalizingTracks(id, row, at, FromStream);
    case TxStatus(_, slot, err, at) =>
      if err.None? {
        ProcessingTracks(id, row, slot, at, FromStream);
      } else {
        FailingLandedTracks(id, row, Classify(rules, OnChainError(err.value, slot)), slot, at);
      }
  }

  lemma ReconcilingTracks(rules: Interpreter, id: int, row: Row, snapshot: Stage, st: Status, now: int)
    requires RowOk(row) && row.status.Open()
    ensures Tracks(row, Reconciling(rules, id, FromRow(row), snapshot, st, now))
  {
    var p := FromRow(row);
    if st.errHex.Some? {
      FailedWriteOk(row, WriteFailed(id, Classify(rules, OnChainError(st.errHex.value, st.slot)),
                                     Some(AsI64(st.slot)), Some(now), Some(now - p.submittedAt), now));
    } else {
      KeepTracks(row);
      ProcessingTracks(id, row, st.slot, now, FromReconcile);
      var target, seen := st.confirmation.Rank(), snapshot.Rank();
      var e := if target >= 1 && seen < 1 then Processing(id, p, st.slot, now, FromReconcile) else Keep(p);
      ThenConfirmingTracks(row, e, id, now, FromReconcile);
      var e' := if target >= 2 && seen < 2 then ThenConfirming(e, id, now, FromReconcile) else e;
      ThenFinalizingTracks(row, e', id, now, FromReconcile);
    }
  }

  lemma BundleStepTracks(cfg: Config, clock: u64, id: int, row: Row, op: Op)
    requires RowOk(row) && row.status.Open()
    ensures Tracks(JitoColumn(row, op, id), BundleStep(cfg, clock, id, FromRow(row), op))
  {
    KeepTracks(JitoColumn(row, op, id));
    match op
    case Event(e) => EventTracks(cfg.rules, id, row, e);
    case ApplyStatus(_, snapshot, st, now) => ReconcilingTracks(cfg.rules, id, row, snapshot, st, now);
    case Reject(_, raw, now) =>
      FailedWriteOk(row, WriteFailed(id, Classify(cfg.rules, SubmitRejection(raw)), None, None, None, now));
    case Sweep(at) =>
      FailedWriteOk(row, WriteFailed(id, Classify(cfg.rules, SweepEvidence(FromRow(row), clock)), None, None, None,
                                     at(id)));
    case _ =>
  }

  /** A row that is not open stays so, and stays in order, even under the unchecked failures. */
  lemma OrphanKeepsRow(cfg: Config, id: int, row: Row, op: Op)
    requires RowOk(row) && !row.status.Open()
    ensures var row' := PersistAll(JitoColumn(row, op, id), OrphanWrites(cfg, id, op));
            RowOk(row') && !row'.status.Open()
  {
    if OrphanWrites(cfg, id, op) != [] {
      FailedWriteOk(row, OrphanWrites(cfg, id, op)[0]);
    }
  }

  lemma RowStepTracks(cfg: Config, m: Model, op: Op, id: int)
    requires Inv(m) && id in m.table && !op.Submit? && !op.Crash?
    ensures RowOk(RowStep(cfg, m, op, id))
    ensures RowStep(cfg, m, op, id).status.Open()
       <==> id in m.pending && BundleStep(cfg, m.clock, id, m.pending[id], op).after.Some?
    ensures RowStep(cfg, m, op, id).status.Open() ==>
              BundleStep(cfg, m.clock, id, m.pending[id], op).after.value == FromRow(RowStep(cfg, m, op, id))
  {
    if m.table[id].status.Open() {
      assert id in m.pending;
      BundleStepTracks(cfg, m.clock, id, m.table[id], op);
    } else {
      assert id !in m.pending;
      OrphanKeepsRow(cfg, id, m.table[id], op);
    }
  }

  function Lookup(pending: map<int, Pending>, id: int): Option<Pending> {
    if id in pending then Some(pending[id]) else None
  }

  function AfterStep(cfg: Config, m: Model, op: Op, id: int): Option<Pending> {
    if id in m.pending then BundleStep(cfg, m.clock, id, m.pending[id], op).after else None
  }

  /** The shape of a step that neither adds a row nor restarts the tracker. */
  lemma StepAt(cfg: Config, m: Model, op: Op)
    requires !op.Submit? && !op.Crash?
    ensures var m' := Step(cfg, m, op);
            && m'.nextId == m.nextId && m'.clock == NextClock(m.clock, op)
            && m'.table.Keys == m.table.Keys
            && (forall id :: id in m.table ==> m'.table[id] == RowStep(cfg, m, op, id))
            && (forall id :: Lookup(m'.pending, id) == AfterStep(cfg, m, op, id))
  {
  }

  lemma OrdinaryStepKeepsInv(cfg: Config, m: Model, op: Op)
    requires Inv(m) && !op.Submit? && !op.Crash?
    ensures Inv(Step(cfg, m, op))
  {
    var m' := Step(cfg, m, op);
    StepAt(cfg, m, op);
    forall id
      ensures id in m'.table ==> RowOk(m'.table[id])
      ensures Lookup(m'.pending, id) == Lookup(HydratedPending(m'.table), id)
    {
      assert Lookup(m'.pending, id) == AfterStep(cfg, m, op, id);
      if id in m.table {
        RowStepTracks(cfg, m, op, id);
      }
    }
    SamePending(m'.pending, HydratedPending(m'.table));
  }

  lemma SamePending(a: map<int, Pending>, b: map<int, Pending>)
    requires forall id :: Lookup(a, id) == Lookup(b, id)
    ensures a == b
  {
    forall id ensures id in a <==> id in b {
      assert Lookup(a, id) == Lookup(b, id);
    }
    forall id | id in a ensures a[id] == b[id] {
      assert Lookup(a, id) == Lookup(b, id);
    }
  }

  /** Every operation keeps the table and memory in step, and every row in order. */
  lemma StepKeepsInv(cfg: Config, m: Model, op: Op)
    requires Inv(m)
    ensures Inv(Step(cfg, m, op))
  {
    if op.Submit? {
      SubmitKeepsInv(cfg, m, op);
    } else if !op.Crash? {
      OrdinaryStepKeepsInv(cfg, m, op);
    }
  }

  lemma SubmitKeepsInv(cfg: Config, m: Model, op: Op)
    requires Inv(m) && op.Submit?
    ensures Inv(Step(cfg, m, op))
  {
    var m' := Step(cfg, m, op);
    var row := NewRow(op.submission, op.p50, op.p75);
    assert FromRow(row) == NewPending(op.submission, op.p50, op.p75);
    assert m'.pending == HydratedPending(m'.table);
  }

  lemma {:induction false} RunKeepsInv(cfg: Config, m: Model, ops: seq<Op>)
    requires Inv(m)
    ensures Inv(Run(cfg, m, ops))
    decreases |ops|
  {
    if ops != [] {
      StepKeepsInv(cfg, m, ops[0]);
      RunKeepsInv(cfg, Step(cfg, m, ops[0]), ops[1..]);
    }
  }

  /** In every reachable state the open rows and memory agree on every hydrated field. */
  lemma TableMirrorsMemory(cfg: Config, ops: seq<Op>)
    ensures var m := Run(cfg, EMPTY, ops);
            && (forall id :: id in m.pending <==> id in m.table && m.table[id].status.Open())
            && (forall id :: id in m.pending ==> m.pending[id] == FromRow(m.table[id]))
  {
    RunKeepsInv(cfg, EMPTY, ops);
  }

  /** In every reachable table the deltas add up, a row that skipped Confirmed has no deltas
      derived from it, and the two slot columns still hold the one slot stored at submission. */
  lemma LatenciesTelescope(cfg: Config, ops: seq<Op>, id: int)
    requires id in Run(cfg, EMPTY, ops).table
    ensures var row := Run(cfg, EMPTY, ops).table[id];
            && Telescopes(row)
            && (row.status.Finalized? && row.confirmedAt.None? ==>
                  row.processToConfirm.None? && row.confirmToFinalize.None?)
            && (row.status.Finalized? && row.confirmedAt.Some? ==>
                  row.submitToProcess.Some? && row.processToConfirm.Some? && row.confirmToFinalize.Some?)
            && row.submittedSlot == row.blockhashFetchedAtSlot
  {
    RunKeepsInv(cfg, EMPTY, ops);
  }
}
