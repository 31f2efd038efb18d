/** crates/lifecycle under crates/stream's backpressure: losing slot updates only delays stages, and
    one Finalized update makes up for all that were lost before it. */
module LifecycleLossy {
  import opened Wrappers
  import opened Numbers
  import opened StreamEvents
  import opened LifecycleRows
  import opened LifecycleModel
  import opened LifecycleTraces
  import opened LifecycleReconcile
  import opened LifecyclePasses
  import opened LifecycleColumns

  predicate IsSlot(a: Act) {
    a.Do? && a.op.Event? && a.op.event.Slot?
  }

  /** `lossy` is `full` with some slot updates left out. */
  ghost predicate SubRun(full: seq<Act>, lossy: seq<Act>) {
    if full == [] then lossy == []
    else
      || (lossy != [] && full[0] == lossy[0] && SubRun(full[1..], lossy[1..]))
      || (IsSlot(full[0]) && SubRun(full[1..], lossy))
  }

  /** No sweeps, which consult the clock; statuses fetched by reconcile come as answers to a pass. */
  predicate Plain(a: Act) {
    a.Do? ==> !a.op.Sweep? && !a.op.ApplyStatus?
  }

  predicate AllPlain(acts: seq<Act>) {
    forall i :: 0 <= i < |acts| ==> Plain(acts[i])
  }

  predicate Success(op: Op) {
    op.Event? && op.event.TxStatus? && op.event.err.None?
  }

  predicate LandedError(op: Op) {
    op.Event? && op.event.TxStatus? && op.event.err.Some?
  }

  /** What a pass goes by is a stage the row has had; stages never fall, so it is not above the row's. */
  predicate Honest(m: Model, op: Op) {
    op.ApplyStatus? && op.id in m.table ==> op.snapshot.Rank() <= m.table[op.id].status.Rank()
  }

  lemma StageReadEarlierIsHonest(cfg: Config, m: Model, meanwhile: seq<Op>, id: int, st: Status, now: int)
    requires Inv(m) && id in m.table
    ensures Honest(Run(cfg, m, meanwhile), ApplyStatus(id, m.table[id].status, st, now))
  {
    StagesNeverFall(cfg, m, meanwhile, id);
  }

  // ---------------------------------------------------------------------------
  // What can tell two runs apart
  // ---------------------------------------------------------------------------

  /** An error on the stream that one of two runs would ignore, its bundle being Confirmed or Finalized
      there, and the other would not. */
  predicate DividesRows(f: Row, l: Row, op: Op) {
    && LandedError(op) && f.memoSignature == op.event.signature && l.memoSignature == op.event.signature
    && (f.status.Confirmed? || f.status.Finalized?) && l.status.Processed?
  }

  /** Or an error that only one of them hears of: the pass of the other found the bundle Finalized, and
      did not ask. */
  ghost predicate Divides(f: World, l: World, a: Act) {
    match a
    case Do(op) =>
      exists id ::
        id in f.model.table && id in l.model.table && DividesRows(f.model.table[id], l.model.table[id], op)
    case BeginPass(_) => false
    case Answer(k, id, st, _) =>
      && st.errHex.Some? && Asked(l, k, id) && !Asked(f, k, id)
      && id in f.model.table && f.model.table[id].status.Finalized?
  }

  /** The run that misses every slot update. */
  ghost function BareStep(cfg: Config, b: World, a: Act): World {
    if IsSlot(a) then b else Proceed(cfg, b, a)
  }

  ghost function BareRun(cfg: Config, b: World, acts: seq<Act>): World
    decreases |acts|
  {
    if acts == [] then b else BareRun(cfg, BareStep(cfg, b, acts[0]), acts[1..])
  }

  /** No error ever divides the run from the one without slot updates. */
  ghost predicate TimelyRun(cfg: Config, f: World, b: World, acts: seq<Act>)
    decreases |acts|
  {
    acts == [] ||
    (!Divides(f, b, acts[0]) && TimelyRun(cfg, Proceed(cfg, f, acts[0]), BareStep(cfg, b, acts[0]), acts[1..]))
  }

  /** A slot update that advances bundles. */
  predicate Advances(op: Op) {
    op.Event? && op.event.Slot? && (op.event.status.SlotConfirmed? || op.event.status.SlotFinalized?)
  }

  predicate UpTo(a: Act, n: u64) {
    a.Do? && Advances(a.op) ==> a.op.event.slot <= n
  }

  predicate AdvancesUpTo(acts: seq<Act>, n: u64) {
    forall i :: 0 <= i < |acts| ==> UpTo(acts[i], n)
  }

  // ---------------------------------------------------------------------------
  // One row at a time
  // ---------------------------------------------------------------------------

  /** The stage a row moves to, read off the row itself. */
  function NextStage(row: Row, op: Op, id: int): Stage {
    match op
    case Reject(i, _, _) => if i == id then Stage.Failed else row.status
    case ApplyStatus(i, _, st, _) =>
      if i != id then row.status
      else if st.errHex.Some? then Stage.Failed
      else if row.status.Open() then Higher(row.status, st.confirmation)
      else row.status
    case Event(e) =>
      (match e
       case Slot(n, status, _) =>
         if row.landedSlot.None? || AsU64(row.landedSlot.value) > n then row.status
         else if status.SlotConfirmed? && row.status.Processed? then Stage.Confirmed
         else if status.SlotFinalized? && (row.status.Processed? || row.status.Confirmed?) then Stage.Finalized
         else row.status
       case TxStatus(signature, _, err, _) =>
         if row.memoSignature != signature then row.status
         else if err.None? then (if row.status.Submitted? then Stage.Processed else row.status)
         else if row.status.Submitted? || row.status.Processed? then Stage.Failed
         else row.status)
    case _ => row.status
  }

  /** Its landed slot is set by the success that takes it out of Submitted. */
  function NextLanded(row: Row, op: Op, id: int): Option<i64> {
    if !row.status.Submitted? then row.landedSlot
    else if Success(op) && op.event.signature == row.memoSignature then Some(AsI64(op.event.slot))
    else if op.ApplyStatus? && op.id == id then Some(AsI64(op.st.slot))
    else row.landedSlot
  }

  /** The row after an operation other than a sweep, a submission or a crash. */
  ghost predicate Moves(row: Row, row': Row, op: Op, id: int) {
    && row'.memoSignature == row.memoSignature
    && row'.status == NextStage(row, op, id)
    && (!row'.status.Failed? ==> row'.landedSlot == NextLanded(row, op, id))
  }

  lemma ColumnsMove(cfg: Config, clock: u64, id: int, row: Row, op: Op)
    requires RowOk(row) && !op.Sweep? && (op.ApplyStatus? && op.id == id ==> op.snapshot.Rank() <= row.status.Rank())
    ensures Moves(row, NextRow(cfg, clock, id, row, op), op, id)
  {
  }

  lemma RowMoves(cfg: Config, m: Model, op: Op, id: int)
    requires Inv(m) && id in m.table && !op.Sweep? && !op.Submit? && !op.Crash? && Honest(m, op)
    ensures Moves(m.table[id], RowStep(cfg, m, op, id), op, id)
  {
    RowStepIs(cfg, m, op, id);
    ColumnsMove(cfg, m.clock, id, m.table[id], op);
  }

  /** How the row of the full run and that of the lossy run may differ: equal, or both landed with the
      lossy one behind, in a slot no later than `n`. */
  predicate RowsClose(full: Row, lossy: Row, n: u64) {
    && full.memoSignature == lossy.memoSignature
    && (Landed(full.status) <==> Landed(lossy.status))
    && (Landed(full.status) ==> full.landedSlot.Some? && full.landedSlot == lossy.landedSlot)
    && (full.status.Submitted? ==> full.landedSlot.None? && lossy.landedSlot.None?)
    && (full.status != lossy.status ==>
          Landed(full.status) && lossy.status.Rank() <= full.status.Rank() && AsU64(full.landedSlot.value) <= n)
  }

  ghost predicate Close(full: Model, lossy: Model, n: u64) {
    && Inv(full) && Inv(lossy)
    && full.nextId == lossy.nextId && full.table.Keys == lossy.table.Keys
    && (forall id :: id in full.table ==> RowsClose(full.table[id], lossy.table[id], n))
  }

  /** The same operation in two runs: of an answer, the same status, whatever stage was read. */
  ghost predicate SameOp(f: Op, l: Op) {
    f == l || (f.ApplyStatus? && l.ApplyStatus? && f.id == l.id && f.st == l.st)
  }

  lemma BothMove(f: Row, l: Row, f': Row, l': Row, op: Op, op': Op, id: int, n: u64)
    requires RowsClose(f, l, n) && SameOp(op, op') && Moves(f, f', op, id) && Moves(l, l', op', id)
    requires Advances(op) ==> op.event.slot <= n
    requires !DividesRows(f, l, op)
    ensures RowsClose(f', l', n)
  {
  }

  lemma FullMoves(f: Row, l: Row, f': Row, op: Op, id: int, n: u64)
    requires RowsClose(f, l, n) && op.Event? && op.event.Slot? && Moves(f, f', op, id)
    requires Advances(op) ==> op.event.slot <= n
    ensures RowsClose(f', l, n)
  {
  }

  /** An answer for a bundle that is finished in the full run, and was when its pass began. */
  lemma LossyMoves(f: Row, l: Row, l': Row, op: Op, n: u64)
    requires RowsClose(f, l, n) && op.ApplyStatus? && Moves(l, l', op, op.id)
    requires !f.status.Open() && (op.st.errHex.Some? ==> !f.status.Finalized?)
    ensures RowsClose(f, l', n)
  {
  }

  lemma StepStaysClose(cfg: Config, f: Model, l: Model, op: Op, op': Op, n: u64)
    requires Close(f, l, n) && SameOp(op, op') && !op.Sweep? && Honest(f, op) && Honest(l, op')
    requires forall id :: id in f.table ==> !DividesRows(f.table[id], l.table[id], op)
    requires Advances(op) ==> op.event.slot <= n
    ensures Close(Step(cfg, f, op), Step(cfg, l, op'), n)
  {
    StepKeepsInv(cfg, f, op);
    StepKeepsInv(cfg, l, op');
    if !op.Submit? && !op.Crash? {
      var f', l' := Step(cfg, f, op), Step(cfg, l, op');
      StepAt(cfg, f, op);
      StepAt(cfg, l, op');
      forall id | id in f.table ensures RowsClose(f'.table[id], l'.table[id], n) {
        RowMoves(cfg, f, op, id);
        RowMoves(cfg, l, op', id);
        BothMove(f.table[id], l.table[id], f'.table[id], l'.table[id], op, op', id, n);
      }
    }
  }

  lemma SlotStaysClose(cfg: Config, f: Model, l: Model, op: Op, n: u64)
    requires Close(f, l, n) && op.Event? && op.event.Slot?
    requires Advances(op) ==> op.event.slot <= n
    ensures Close(Step(cfg, f, op), l, n)
  {
    StepKeepsInv(cfg, f, op);
    var f' := Step(cfg, f, op);
    StepAt(cfg, f, op);
    forall id | id in f.table ensures RowsClose(f'.table[id], l.table[id], n) {
      RowMoves(cfg, f, op, id);
      FullMoves(f.table[id], l.table[id], f'.table[id], op, id, n);
    }
  }

  lemma AnswerStaysClose(cfg: Config, f: Model, l: Model, op: Op, n: u64)
    requires Close(f, l, n) && op.ApplyStatus? && Honest(l, op)
    requires op.id in f.table ==>
      !f.table[op.id].status.Open() && (op.st.errHex.Some? ==> !f.table[op.id].status.Finalized?)
    ensures Close(f, Step(cfg, l, op), n)
  {
    StepKeepsInv(cfg, l, op);
    var l' := Step(cfg, l, op);
    StepAt(cfg, l, op);
    ApplyTouchesOne(cfg, l, op.id, op.snapshot, op.st, op.now);
    if op.id in f.table {
      RowMoves(cfg, l, op, op.id);
      LossyMoves(f.table[op.id], l.table[op.id], l'.table[op.id], op, n);
    }
  }

  // ---------------------------------------------------------------------------
  // One act at a time
  // ---------------------------------------------------------------------------

  /** The passes of the lossy run have asked for what those of the full run have, and besides only for
      bundles that are finished in the full run. */
  ghost predicate PassesClose(f: World, l: World) {
    forall k, id ::
      && (Asked(f, k, id) ==> Asked(l, k, id))
      && (Asked(l, k, id) && !Asked(f, k, id) ==> id in f.model.table && !f.model.table[id].status.Open())
  }

  ghost predicate WorldsClose(f: World, l: World, n: u64) {
    WorldOk(f) && WorldOk(l) && Close(f.model, l.model, n) && PassesClose(f, l)
  }

  lemma FinishedStays(cfg: Config, m: Model, op: Op, id: int)
    requires Inv(m) && id in m.table && !m.table[id].status.Open()
    ensures id in Step(cfg, m, op).table && !Step(cfg, m, op).table[id].status.Open()
  {
    StepIsLawful(cfg, m, op, id);
  }

  lemma PassesStayClose(cfg: Config, f: World, l: World, a: Act)
    requires WorldOk(f) && PassesClose(f, l) && !a.BeginPass?
    ensures PassesClose(Proceed(cfg, f, a), Proceed(cfg, l, a))
  {
    var f', l' := Proceed(cfg, f, a), Proceed(cfg, l, a);
    forall k, id | Asked(l', k, id) && !Asked(f', k, id)
      ensures id in f'.model.table && !f'.model.table[id].status.Open()
    {
      assert Asked(l, k, id) && !Asked(f, k, id);
      if OpOf(f, a).Some? {
        FinishedStays(cfg, f.model, OpOf(f, a).value, id);
      }
    }
    assert forall k, id :: Asked(f', k, id) ==> Asked(f, k, id) && Asked(l, k, id);
  }

  lemma ReadingsClose(f: Table, l: Table, id: int, n: u64)
    requires f.Keys == l.Keys && (id in f ==> RowsClose(f[id], l[id], n))
    ensures id in ReadOpen(f) ==> id in ReadOpen(l)
    ensures id in ReadOpen(l) && id !in ReadOpen(f) ==> id in f && !f[id].status.Open()
  {
  }

  lemma BeginPassStaysClose(cfg: Config, f: World, l: World, k: nat, n: u64)
    requires WorldsClose(f, l, n)
    ensures PassesClose(Proceed(cfg, f, BeginPass(k)), Proceed(cfg, l, BeginPass(k)))
  {
    var f', l' := Proceed(cfg, f, BeginPass(k)), Proceed(cfg, l, BeginPass(k));
    forall k', id
      ensures Asked(f', k', id) ==> Asked(l', k', id)
      ensures Asked(l', k', id) && !Asked(f', k', id) ==> id in f.model.table && !f.model.table[id].status.Open()
    {
      ReadingsClose(f.model.table, l.model.table, id, n);
      assert k' != k ==> (Asked(f', k', id) <==> Asked(f, k', id)) && (Asked(l', k', id) <==> Asked(l, k', id));
    }
  }

  lemma ModelsStayClose(cfg: Config, f: World, l: World, a: Act, n: u64)
    requires WorldsClose(f, l, n) && Plain(a) && !Divides(f, l, a) && UpTo(a, n)
    ensures Close(Proceed(cfg, f, a).model, Proceed(cfg, l, a).model, n)
  {
    match a
    case BeginPass(_) =>
    case Do(op) =>
      forall id | id in f.model.table ensures !DividesRows(f.model.table[id], l.model.table[id], op) {
      }
      StepStaysClose(cfg, f.model, l.model, op, op, n);
    case Answer(k, id, st, now) =>
      if Asked(l, k, id) {
        var op' := ApplyStatus(id, l.passes[k][id], st, now);
        if Asked(f, k, id) {
          StepStaysClose(cfg, f.model, l.model, ApplyStatus(id, f.passes[k][id], st, now), op', n);
        } else {
          AnswerStaysClose(cfg, f.model, l.model, op', n);
        }
      } else {
        assert !Asked(f, k, id);
      }
  }

  lemma BothProceed(cfg: Config, f: World, l: World, a: Act, n: u64)
    requires WorldsClose(f, l, n) && Plain(a) && !Divides(f, l, a) && UpTo(a, n)
    ensures WorldsClose(Proceed(cfg, f, a), Proceed(cfg, l, a), n)
  {
    ProceedKeepsOk(cfg, f, a);
    ProceedKeepsOk(cfg, l, a);
    ModelsStayClose(cfg, f, l, a, n);
    match a
    case BeginPass(k) => BeginPassStaysClose(cfg, f, l, k, n);
    case _ => PassesStayClose(cfg, f, l, a);
  }

  lemma FullProceeds(cfg: Config, f: World, l: World, a: Act, n: u64)
    requires WorldsClose(f, l, n) && IsSlot(a) && UpTo(a, n)
    ensures WorldsClose(Proceed(cfg, f, a), l, n)
  {
    ProceedKeepsOk(cfg, f, a);
    SlotStaysClose(cfg, f.model, l.model, a.op, n);
    var f' := Proceed(cfg, f, a);
    forall k, id | Asked(l, k, id) && !Asked(f', k, id)
      ensures id in f'.model.table && !f'.model.table[id].status.Open()
    {
      assert !Asked(f, k, id);
      FinishedStays(cfg, f.model, a.op, id);
    }
    assert forall k, id :: Asked(f', k, id) ==> Asked(f, k, id) && Asked(l, k, id);
  }

  /** An error that does not divide the runs at either end divides no run in between. */
  lemma NoDivisionBetween(f: World, l: World, b: World, a: Act, n: u64)
    requires WorldsClose(f, l, n) && WorldsClose(l, b, n) && !Divides(f, b, a)
    ensures !Divides(f, l, a) && !Divides(l, b, a)
  {
    match a
    case BeginPass(_) =>
    case Do(op) =>
      forall id | id in f.model.table
        ensures !DividesRows(f.model.table[id], l.model.table[id], op)
        ensures !DividesRows(l.model.table[id], b.model.table[id], op)
      {
        assert RowsClose(f.model.table[id], l.model.table[id], n) && RowsClose(l.model.table[id], b.model.table[id], n);
        assert !DividesRows(f.model.table[id], b.model.table[id], op);
      }
    case Answer(k, id, _, _) =>
      assert Asked(f, k, id) ==> Asked(l, k, id);
      assert Asked(l, k, id) ==> Asked(b, k, id);
      assert id in f.model.table ==> RowsClose(f.model.table[id], l.model.table[id], n);
  }

  lemma {:induction false} RunsStayClose(cfg: Config, f: World, l: World, b: World, full: seq<Act>, lossy: seq<Act>,
                                         n: u64)
    requires WorldsClose(f, l, n) && WorldsClose(l, b, n)
    requires SubRun(full, lossy) && AllPlain(full) && AdvancesUpTo(full, n) && TimelyRun(cfg, f, b, full)
    ensures WorldsClose(ProceedAll(cfg, f, full), ProceedAll(cfg, l, lossy), n)
    ensures WorldsClose(ProceedAll(cfg, l, lossy), BareRun(cfg, b, full), n)
    decreases |full|
  {
    if full != [] {
      var a := full[0];
      assert Plain(a) && UpTo(a, n);
      var f', b' := Proceed(cfg, f, a), BareStep(cfg, b, a);
      if lossy != [] && a == lossy[0] && SubRun(full[1..], lossy[1..]) {
        NoDivisionBetween(f, l, b, a, n);
        BothProceed(cfg, f, l, a, n);
        if IsSlot(a) {
          FullProceeds(cfg, l, b, a, n);
        } else {
          BothProceed(cfg, l, b, a, n);
        }
        RunsStayClose(cfg, f', Proceed(cfg, l, a), b', full[1..], lossy[1..], n);
      } else {
        FullProceeds(cfg, f, l, a, n);
        RunsStayClose(cfg, f', l, b', full[1..], lossy, n);
      }
    }
  }

  /** The runs compared: a full one and one that misses some of its slot updates, each with passes on
      its own table; crashes may come anywhere, and errors where they do not tell the two apart. */
  ghost predicate Comparable(cfg: Config, full: seq<Act>, lossy: seq<Act>) {
    SubRun(full, lossy) && AllPlain(full) && TimelyRun(cfg, NEW_WORLD, NEW_WORLD, full)
  }

  /** A run that misses slot updates is never ahead of the run that misses none. */
  lemma LossyNeverAhead(cfg: Config, full: seq<Act>, lossy: seq<Act>, id: int)
    requires Comparable(cfg, full, lossy)
    ensures var f, l := ProceedAll(cfg, NEW_WORLD, full).model.table, ProceedAll(cfg, NEW_WORLD, lossy).model.table;
            && f.Keys == l.Keys
            && (id in f ==> l[id].status.Rank() <= f[id].status.Rank()
                            && (f[id].status != l[id].status ==> Landed(f[id].status) && Landed(l[id].status)))
  {
    RunsStayClose(cfg, NEW_WORLD, NEW_WORLD, NEW_WORLD, full, lossy, U64_MAX);
  }

  /** And a Finalized update at or above every slot that has advanced a bundle brings them level. */
  lemma FinalizedMakesUp(cfg: Config, full: seq<Act>, lossy: seq<Act>, n: u64, at: int, at': int, id: int)
    requires Comparable(cfg, full, lossy) && AdvancesUpTo(full, n)
    ensures var f, l := ProceedAll(cfg, NEW_WORLD, full).model, ProceedAll(cfg, NEW_WORLD, lossy).model;
            var f' := Step(cfg, f, Event(Slot(n, SlotFinalized, at))).table;
            var l' := Step(cfg, l, Event(Slot(n, SlotFinalized, at'))).table;
            f'.Keys == l'.Keys && (id in f' ==> f'[id].status == l'[id].status)
  {
    RunsStayClose(cfg, NEW_WORLD, NEW_WORLD, NEW_WORLD, full, lossy, n);
    var f, l := ProceedAll(cfg, NEW_WORLD, full).model, ProceedAll(cfg, NEW_WORLD, lossy).model;
    CloseRunsLevel(cfg, f, l, n, at, at', id);
  }

  lemma LevelRows(f: Row, l: Row, f': Row, l': Row, n: u64, at: int, at': int, id: int)
    requires RowsClose(f, l, n)
    requires Moves(f, f', Event(Slot(n, SlotFinalized, at)), id) && Moves(l, l', Event(Slot(n, SlotFinalized, at')), id)
    ensures f'.status == l'.status
  {
  }

  lemma CloseRunsLevel(cfg: Config, f: Model, l: Model, n: u64, at: int, at': int, id: int)
    requires Close(f, l, n)
    ensures var f' := Step(cfg, f, Event(Slot(n, SlotFinalized, at))).table;
            var l' := Step(cfg, l, Event(Slot(n, SlotFinalized, at'))).table;
            f'.Keys == l'.Keys && (id in f' ==> f'[id].status == l'[id].status)
  {
    var op, op' := Event(Slot(n, SlotFinalized, at)), Event(Slot(n, SlotFinalized, at'));
    StepAt(cfg, f, op);
    StepAt(cfg, l, op');
    if id in f.table {
      RowMoves(cfg, f, op, id);
      RowMoves(cfg, l, op', id);
      LevelRows(f.table[id], l.table[id], RowStep(cfg, f, op, id), RowStep(cfg, l, op', id), n, at, at', id);
    }
  }

  lemma RowAfter(cfg: Config, m: Model, op: Op, id: int)
    requires Inv(m) && id in m.table && !op.Sweep? && !op.Submit? && !op.Crash? && Honest(m, op)
    ensures var m' := Step(cfg, m, op);
            Inv(m') && id in m'.table && Moves(m.table[id], m'.table[id], op, id)
  {
    StepKeepsInv(cfg, m, op);
    StepAt(cfg, m, op);
    RowMoves(cfg, m, op, id);
  }
}
