/** crates/lifecycle and crates/orchestrator: what a sweep decides, and that the retry driver, working
    from the row alone, reaches the same verdict. */
module LifecycleSweep {
  import opened Wrappers
  import opened Numbers
  import opened Failure
  import opened LifecycleRows
  import opened LifecycleModel
  import opened LifecycleRecovery

  /** `load_bundle_row` and `handle_timed_out`: the evidence rebuilt from the row, with the
      orchestrator's own slot clock. */
  function RowEvidence(row: Row, slotClock: u64): Evidence {
    NeverLanded(AsU64(row.submittedSlot), AsU64(row.blockhashFetchedAtSlot),
                Max(slotClock, AsU64(row.blockhashFetchedAtSlot)), AsU64(row.tipLamports),
                SlotValue(row.tipP50), SlotValue(row.tipP75), FromStatusStr(row.jitoInflightStatus))
  }

  /** A bundle that a sweep is due to fail: still Submitted, and its blockhash too old. */
  predicate Overdue(cfg: Config, m: Model, row: Row) {
    row.status.Submitted? && SaturatingSub(m.clock, AsU64(row.blockhashFetchedAtSlot)) > cfg.timeoutSlots
  }

  /** In every reachable state a sweep fails exactly the overdue bundles and leaves every other row as
      it was. The verdict is an outbid tip or a lost auction: since submission fills both slot columns
      with one slot, an expired blockhash is never the verdict, however old the hash has become. */
  lemma SweepVerdicts(cfg: Config, ops: seq<Op>, at: int -> int, id: int)
    requires id in Run(cfg, EMPTY, ops).table
    ensures var m := Run(cfg, EMPTY, ops);
            var row := m.table[id];
            var m' := Step(cfg, m, Sweep(at));
            && id in m'.table
            && (!Overdue(cfg, m, row) ==> m'.table[id] == row)
            && (Overdue(cfg, m, row) ==>
                  var outbid := row.tipP50.Some? && AsU64(row.tipLamports) < AsU64(row.tipP50.value);
                  && m'.table[id].status.Failed? && m'.table[id].failure.Some?
                  && m'.table[id].failure.value.kind == (if outbid then FeeTooLow else AuctionLost)
                  && m'.table[id].failure.value.kind != ExpiredBlockhash)
  {
    RunKeepsInv(cfg, EMPTY, ops);
    var m := Run(cfg, EMPTY, ops);
    StepAt(cfg, m, Sweep(at));
    SweptRow(cfg, m, id, at);
    OverdueVerdict(cfg, m, m.table[id]);
    assert m.table[id].status.Open() ==> id in m.pending && m.pending[id] == FromRow(m.table[id]);
    assert id in m.pending ==> m.table[id].status.Open();
  }

  lemma OverdueVerdict(cfg: Config, m: Model, row: Row)
    requires RowOk(row)
    ensures Overdue(cfg, m, row) <==> TimedOut(cfg.timeoutSlots, m.clock, FromRow(row))
    ensures var outbid := row.tipP50.Some? && AsU64(row.tipLamports) < AsU64(row.tipP50.value);
            Classify(cfg.rules, SweepEvidence(FromRow(row), m.clock)).kind == if outbid then FeeTooLow else AuctionLost
  {
  }

  /** The columns stamped at submission are never rewritten. */
  predicate SameStamp(a: Row, b: Row) {
    && a.memoSignature == b.memoSignature && a.submittedAt == b.submittedAt
    && a.submittedSlot == b.submittedSlot && a.blockhashFetchedAtSlot == b.blockhashFetchedAtSlot
    && a.tipLamports == b.tipLamports && a.tipP50 == b.tipP50 && a.tipP75 == b.tipP75
  }

  lemma {:induction false} PersistKeepsStamp(row: Row, ws: seq<Write>)
    ensures SameStamp(row, PersistAll(row, ws))
    ensures PersistAll(row, ws).jitoInflightStatus == row.jitoInflightStatus
  {
    if ws != [] {
      PersistKeepsStamp(row, ws[..|ws| - 1]);
    }
  }

  predicate Polls(op: Op, id: int) {
    op.JitoStatus? && op.id == id
  }

  lemma StepKeepsStamp(cfg: Config, m: Model, op: Op, id: int)
    requires Inv(m) && id in m.table
    ensures id in Step(cfg, m, op).table
    ensures SameStamp(m.table[id], Step(cfg, m, op).table[id])
    ensures Step(cfg, m, op).table[id].jitoInflightStatus ==
            if Polls(op, id) then Some(op.status) else m.table[id].jitoInflightStatus
  {
    if !op.Submit? && !op.Crash? {
      StepAt(cfg, m, op);
      PersistKeepsStamp(JitoColumn(m.table[id], op, id), WritesFor(cfg, m, op, id));
    }
  }

  /** The last Jito status polled for a bundle, if there was any. */
  function LastPoll(ops: seq<Op>, id: int): Option<string> {
    if ops == [] then None
    else if LastPoll(ops[1..], id).Some? then LastPoll(ops[1..], id)
    else if Polls(ops[0], id) then Some(ops[0].status)
    else None
  }

  lemma {:induction false} NoPolls(ops: seq<Op>, id: int)
    requires forall i :: 0 <= i < |ops| ==> !Polls(ops[i], id)
    ensures LastPoll(ops, id).None?
  {
    if ops != [] {
      NoPolls(ops[1..], id);
    }
  }

  lemma {:induction false} RunKeepsStamp(cfg: Config, m: Model, ops: seq<Op>, id: int)
    requires Inv(m) && id in m.table
    ensures id in Run(cfg, m, ops).table
    ensures SameStamp(m.table[id], Run(cfg, m, ops).table[id])
    ensures Run(cfg, m, ops).table[id].jitoInflightStatus ==
            if LastPoll(ops, id).Some? then LastPoll(ops, id) else m.table[id].jitoInflightStatus
    decreases |ops|
  {
    if ops != [] {
      StepKeepsInv(cfg, m, ops[0]);
      StepKeepsStamp(cfg, m, ops[0], id);
      RunKeepsStamp(cfg, Step(cfg, m, ops[0]), ops[1..], id);
    }
  }

  /** A verdict is a matter of what was stamped at submission and the Jito status, whatever the clock. */
  lemma SameVerdict(rules: Interpreter, a: Row, b: Row, last: u64, slotClock: u64)
    requires SameStamp(a, b) && a.jitoInflightStatus == b.jitoInflightStatus
    ensures Classify(rules, SweepEvidence(FromRow(a), last)) == Classify(rules, RowEvidence(b, slotClock))
  {
  }

  /** The driver handles the timed-out bundle some time later, after any other operations but a new
      Jito status for it, and by another clock: the verdict it computes is the one the sweep stored. */
  lemma DriverAgreesWithSweep(cfg: Config, ops: seq<Op>, at: int -> int, meanwhile: seq<Op>, slotClock: u64, id: int)
    requires id in Run(cfg, EMPTY, ops).table && Overdue(cfg, Run(cfg, EMPTY, ops), Run(cfg, EMPTY, ops).table[id])
    requires forall i :: 0 <= i < |meanwhile| ==> !Polls(meanwhile[i], id)
    ensures var swept := Step(cfg, Run(cfg, EMPTY, ops), Sweep(at));
            var later := Run(cfg, swept, meanwhile);
            && id in swept.table && id in later.table
            && swept.table[id].failure == Some(Classify(cfg.rules, RowEvidence(later.table[id], slotClock)))
  {
    RunKeepsInv(cfg, EMPTY, ops);
    var m := Run(cfg, EMPTY, ops);
    var swept := Step(cfg, m, Sweep(at));
    StepKeepsInv(cfg, m, Sweep(at));
    StepAt(cfg, m, Sweep(at));
    SweptRow(cfg, m, id, at);
    RunKeepsStamp(cfg, swept, meanwhile, id);
    NoPolls(meanwhile, id);
    assert m.pending[id] == FromRow(m.table[id]);
    SameVerdict(cfg.rules, m.table[id], Run(cfg, swept, meanwhile).table[id], m.clock, slotClock);
  }
}
