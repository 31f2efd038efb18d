/** crates/lifecycle: the writes one row receives over a whole run. */
module LifecycleTraces {
  import opened Wrappers
  import opened Numbers
  import opened Failure
  import opened LifecycleRows
  import opened LifecycleModel

  /** The writes that reach one row; an update that names no row reaches nothing. */
  ghost function Trace(cfg: Config, m: Model, ops: seq<Op>, id: int): seq<Write>
    decreases |ops|
  {
    if ops == [] then []
    else (if id in m.table then WritesFor(cfg, m, ops[0], id) else []) + Trace(cfg, Step(cfg, m, ops[0]), ops[1..], id)
  }

  predicate Terminal(w: Write) {
    w.WriteFinalized? || w.WriteFailed?
  }

  /** A well-behaved history of one row. */
  ghost predicate Lawful(ws: seq<Write>) {
    && (forall i, j :: 0 <= i < j < |ws| ==> ws[i].Stage().Rank() < ws[j].Stage().Rank())
    && (forall i :: 0 <= i < |ws| && (ws[i].WriteConfirmed? || ws[i].WriteFinalized?) ==>
          exists j :: 0 <= j < i && ws[j].WriteProcessed?)
    && (forall i :: 0 <= i < |ws| && Terminal(ws[i]) ==> i == |ws| - 1)
  }

  /** Which stage a row may be put in next. */
  predicate MayFollow(s: Stage, t: Stage) {
    && s.Open()
    && s.Rank() < t.Rank()
    && (s.Submitted? ==> t.Processed? || t.Failed?)
  }

  function StageAfter(s: Stage, ws: seq<Write>): Stage {
    if ws == [] then s else ws[|ws| - 1].Stage()
  }

  /** The same law as an automaton over stages. */
  predicate LawfulFrom(s: Stage, ws: seq<Write>) {
    ws == [] || (LawfulFrom(s, ws[..|ws| - 1]) && MayFollow(StageAfter(s, ws[..|ws| - 1]), ws[|ws| - 1].Stage()))
  }

  lemma {:induction false} LawfulConcat(s: Stage, a: seq<Write>, b: seq<Write>)
    ensures LawfulFrom(s, a + b) <==> LawfulFrom(s, a) && LawfulFrom(StageAfter(s, a), b)
  {
    if b == [] {
      assert a + b == a;
    } else {
      var b' := b[..|b| - 1];
      assert (a + b)[..|a + b| - 1] == a + b';
      LawfulConcat(s, a, b');
      assert StageAfter(StageAfter(s, a), b') == StageAfter(s, a + b');
    }
  }

  lemma {:induction false} LawfulIsAutomaton(ws: seq<Write>)
    ensures Lawful(ws) <==> LawfulFrom(Submitted, ws)
  {
    if ws != [] {
      var n := |ws| - 1;
      var front, last := ws[..n], ws[n];
      LawfulIsAutomaton(front);
      if Lawful(ws) {
        LawfulPrefix(ws, n);
      }
      if Lawful(front) {
        LawfulLast(front, last);
        assert ws == front + [last];
      }
    }
  }

  lemma LawfulPrefix(ws: seq<Write>, n: nat)
    requires Lawful(ws) && n <= |ws|
    ensures Lawful(ws[..n])
  {
  }

  lemma LawfulLast(front: seq<Write>, w: Write)
    requires Lawful(front)
    ensures Lawful(front + [w]) <==> MayFollow(StageAfter(Submitted, front), w.Stage())
  {
    if MayFollow(StageAfter(Submitted, front), w.Stage()) {
      LawfulExtends(front, w);
    }
    if Lawful(front + [w]) {
      LawfulRestricts(front, w);
    }
  }

  lemma LandedBefore(front: seq<Write>, w: Write, i: nat)
    requires Lawful(front) && MayFollow(StageAfter(Submitted, front), w.Stage()) && i <= |front|
    requires (front + [w])[i].WriteConfirmed? || (front + [w])[i].WriteFinalized?
    ensures exists j :: 0 <= j < i && (front + [w])[j].WriteProcessed?
  {
    var ws, n := front + [w], |front|;
    if i < n {
      var j :| 0 <= j < i && front[j].WriteProcessed?;
      assert ws[j].WriteProcessed?;
    } else if front[n - 1].WriteProcessed? {
      assert ws[n - 1].WriteProcessed?;
    } else {
      var j :| 0 <= j < n - 1 && front[j].WriteProcessed?;
      assert ws[j].WriteProcessed?;
    }
  }

  lemma RankedBefore(front: seq<Write>, w: Write, i: nat)
    requires Lawful(front) && MayFollow(StageAfter(Submitted, front), w.Stage()) && i < |front|
    ensures front[i].Stage().Rank() < w.Stage().Rank() && !Terminal(front[i])
  {
    assert front[i].Stage().Rank() <= front[|front| - 1].Stage().Rank();
  }

  lemma LawfulExtends(front: seq<Write>, w: Write)
    requires Lawful(front) && MayFollow(StageAfter(Submitted, front), w.Stage())
    ensures Lawful(front + [w])
  {
    var ws, n := front + [w], |front|;
    forall i | 0 <= i <= n && (ws[i].WriteConfirmed? || ws[i].WriteFinalized?)
      ensures exists j :: 0 <= j < i && ws[j].WriteProcessed?
    {
      LandedBefore(front, w, i);
    }
    forall i: nat | i < n ensures ws[i].Stage().Rank() < ws[n].Stage().Rank() && !Terminal(ws[i]) {
      RankedBefore(front, w, i);
    }
  }

  lemma LawfulRestricts(front: seq<Write>, w: Write)
    requires Lawful(front + [w])
    ensures MayFollow(StageAfter(Submitted, front), w.Stage())
  {
    var ws, n := front + [w], |front|;
    assert ws[n] == w;
    if front != [] {
      assert ws[n - 1] == front[n - 1];
    }
  }

  // ---------------------------------------------------------------------------
  // Every transition obeys the law
  // ---------------------------------------------------------------------------

  /** The writes continue lawfully from the bundle's stage, and memory ends where they end. */
  ghost predicate Obeys(s: Stage, e: Effect) {
    && LawfulFrom(s, e.writes)
    && (if e.after.Some? then e.after.value.state == StageAfter(s, e.writes) else !StageAfter(s, e.writes).Open())
  }

  lemma OneWriteObeys(s: Stage, w: Write, after: Option<Pending>)
    requires MayFollow(s, w.Stage())
    requires if after.Some? then after.value.state == w.Stage() else !w.Stage().Open()
    ensures Obeys(s, Effect(after, [w]))
  {
  }

  lemma TransitionsObey(id: int, p: Pending, slot: u64, at: int, source: Source, verdict: Classification)
    requires p.state.Open()
    ensures Obeys(p.state, Processing(id, p, slot, at, source))
    ensures Obeys(p.state, Confirming(id, p, at, source))
    ensures Obeys(p.state, Finalizing(id, p, at, source))
    ensures Obeys(p.state, FailingLanded(id, p, verdict, slot, at))
  {
    forall w: Write, after: Option<Pending> |
      MayFollow(p.state, w.Stage()) && (if after.Some? then after.value.state == w.Stage() else !w.Stage().Open())
      ensures Obeys(p.state, Effect(after, [w]))
    {
      OneWriteObeys(p.state, w, after);
    }
  }

  lemma ThenObeys(s: Stage, e: Effect, id: int, at: int, source: Source)
    requires Obeys(s, e) && (e.after.Some? ==> e.after.value.state.Open())
    ensures Obeys(s, ThenConfirming(e, id, at, source))
    ensures Obeys(s, ThenFinalizing(e, id, at, source))
  {
    if e.after.Some? {
      var q := e.after.value;
      TransitionsObey(id, q, 0, at, source, Classification(BundleFailure, Certain));
      LawfulConcat(s, e.writes, Confirming(id, q, at, source).writes);
      LawfulConcat(s, e.writes, Finalizing(id, q, at, source).writes);
    }
  }

  lemma ReconcilingObeys(rules: Interpreter, id: int, p: Pending, snapshot: Stage, st: Status, now: int)
    requires p.state.Open()
    ensures Obeys(p.state, Reconciling(rules, id, p, snapshot, st, now))
  {
    if st.errHex.Some? {
      OneWriteObeys(p.state, Reconciling(rules, id, p, snapshot, st, now).writes[0], None);
    } else {
      MarkingObeys(rules, id, p, snapshot, st, now);
    }
  }

  lemma FurtherMarksObey(s: Stage, e: Effect, id: int, now: int, confirms: bool, finalizes: bool)
    requires Obeys(s, e) && e.after.Some? && e.after.value.state.Open()
    ensures var e' := if confirms then ThenConfirming(e, id, now, FromReconcile) else e;
            Obeys(s, if finalizes then ThenFinalizing(e', id, now, FromReconcile) else e')
  {
    ThenObeys(s, e, id, now, FromReconcile);
    ThenObeys(s, if confirms then ThenConfirming(e, id, now, FromReconcile) else e, id, now, FromReconcile);
  }

  lemma MarkingObeys(rules: Interpreter, id: int, p: Pending, snapshot: Stage, st: Status, now: int)
    requires p.state.Open() && st.errHex.None?
    ensures Obeys(p.state, Reconciling(rules, id, p, snapshot, st, now))
  {
    var target, seen := st.confirmation.Rank(), snapshot.Rank();
    TransitionsObey(id, p, st.slot, now, FromReconcile, Classification(BundleFailure, Certain));
    FurtherMarksObey(
      p.state, if target >= 1 && seen < 1 then Processing(id, p, st.slot, now, FromReconcile) else Keep(p),
      id, now, target >= 2 && seen < 2, target >= 3 && seen < 3);
  }

  lemma BundleStepObeys(cfg: Config, clock: u64, id: int, p: Pending, op: Op)
    requires p.state.Open()
    ensures Obeys(p.state, BundleStep(cfg, clock, id, p, op))
  {
    match op
    case Event(e) =>
      match e {
        case Slot(_, _, at) => TransitionsObey(id, p, 0, at, FromStream, Classification(BundleFailure, Certain));
        case TxStatus(_, slot, err, at) =>
          var verdict := if err.Some? then Classify(cfg.rules, OnChainError(err.value, slot))
              else Classification(BundleFailure, Certain);
          TransitionsObey(id, p, slot, at, FromStream, verdict);
      }
    case ApplyStatus(_, snapshot, st, now) => ReconcilingObeys(cfg.rules, id, p, snapshot, st, now);
    case Reject(_, raw, now) =>
      OneWriteObeys(p.state, WriteFailed(id, Classify(cfg.rules, SubmitRejection(raw)), None, None, None, now), None);
    case Sweep(at) =>
      OneWriteObeys(p.state, WriteFailed(id, Classify(cfg.rules, SweepEvidence(p, clock)), None, None, None, at(id)),
                    None);
    case _ =>
  }

  lemma {:induction false} StatusAfterWrites(row: Row, ws: seq<Write>)
    ensures PersistAll(row, ws).status == StageAfter(row.status, ws)
  {
  }

  lemma {:induction false} LawfulRises(s: Stage, ws: seq<Write>)
    requires LawfulFrom(s, ws)
    ensures s.Rank() <= StageAfter(s, ws).Rank()
  {
    if ws != [] {
      LawfulRises(s, ws[..|ws| - 1]);
    }
  }

  /** A failure recorded without looking whether the bundle is still tracked, when it is not. */
  ghost predicate LateFailure(m: Model, op: Op, id: int) {
    && id in m.table && id !in m.pending
    && ((op.Reject? && op.id == id) || (op.ApplyStatus? && op.id == id && op.st.errHex.Some?))
  }

  ghost predicate NeverLate(cfg: Config, m: Model, ops: seq<Op>, id: int)
    decreases |ops|
  {
    ops == [] || (!LateFailure(m, ops[0], id) && NeverLate(cfg, Step(cfg, m, ops[0]), ops[1..], id))
  }

  lemma WritesAreLawful(cfg: Config, m: Model, op: Op, id: int)
    requires Inv(m) && id in m.table
    ensures var s, ws := m.table[id].status, WritesFor(cfg, m, op, id);
            && s.Rank() <= StageAfter(s, ws).Rank()
            && (LawfulFrom(s, ws) <==> !LateFailure(m, op, id))
            && (LateFailure(m, op, id) ==> StageAfter(s, ws).Failed?)
  {
    var s, ws := m.table[id].status, WritesFor(cfg, m, op, id);
    if s.Open() {
      assert id in m.pending && m.pending[id].state == s;
      BundleStepObeys(cfg, m.clock, id, m.pending[id], op);
      LawfulRises(s, ws);
    } else {
      assert id !in m.pending;
      if ws != [] {
        assert ws[..0] == [] && ws == [ws[0]];
      }
    }
  }

  lemma StepIsLawful(cfg: Config, m: Model, op: Op, id: int)
    requires Inv(m) && id in m.table
    ensures var s, ws, m' := m.table[id].status, WritesFor(cfg, m, op, id), Step(cfg, m, op);
            && id in m'.table && m'.table[id].status == StageAfter(s, ws)
            && s.Rank() <= m'.table[id].status.Rank()
            && (LawfulFrom(s, ws) <==> !LateFailure(m, op, id))
            && (LateFailure(m, op, id) ==> m'.table[id].status.Failed?)
  {
    WritesAreLawful(cfg, m, op, id);
    if !op.Submit? && !op.Crash? {
      StepAt(cfg, m, op);
      StatusAfterWrites(JitoColumn(m.table[id], op, id), WritesFor(cfg, m, op, id));
    }
  }

  lemma NewRowsAreSubmitted(cfg: Config, m: Model, op: Op, id: int)
    requires id !in m.table
    ensures id in Step(cfg, m, op).table ==> Step(cfg, m, op).table[id].status.Submitted?
  {
  }

  lemma {:induction false} TraceIsLawful(cfg: Config, m: Model, ops: seq<Op>, id: int)
    requires Inv(m)
    ensures LawfulFrom(if id in m.table then m.table[id].status else Submitted, Trace(cfg, m, ops, id))
       <==> NeverLate(cfg, m, ops, id)
    decreases |ops|
  {
    if ops != [] {
      var m' := Step(cfg, m, ops[0]);
      StepKeepsInv(cfg, m, ops[0]);
      TraceIsLawful(cfg, m', ops[1..], id);
      var rest := Trace(cfg, m', ops[1..], id);
      if id in m.table {
        StepIsLawful(cfg, m, ops[0], id);
        LawfulConcat(m.table[id].status, WritesFor(cfg, m, ops[0], id), rest);
      } else {
        NewRowsAreSubmitted(cfg, m, ops[0], id);
        assert Trace(cfg, m, ops, id) == [] + rest == rest;
      }
    }
  }

  /** Over every run, with crashes anywhere, the writes that reach a row climb strictly through the
      stages, pass Processed before Confirmed or Finalized, and end with the first terminal one:
      exactly when no rejection or error status is recorded for a bundle no longer tracked. */
  lemma RunIsLawful(cfg: Config, ops: seq<Op>, id: int)
    ensures Lawful(Trace(cfg, EMPTY, ops, id)) <==> NeverLate(cfg, EMPTY, ops, id)
  {
    TraceIsLawful(cfg, EMPTY, ops, id);
    LawfulIsAutomaton(Trace(cfg, EMPTY, ops, id));
  }

  lemma {:induction false} NeverLateSnoc(cfg: Config, m: Model, ops: seq<Op>, op: Op, id: int)
    requires NeverLate(cfg, m, ops + [op], id)
    ensures !LateFailure(Run(cfg, m, ops), op, id)
    decreases |ops|
  {
    if ops == [] {
      assert ops + [op] == [op];
    } else {
      assert (ops + [op])[1..] == ops[1..] + [op];
      NeverLateSnoc(cfg, Step(cfg, m, ops[0]), ops[1..], op, id);
    }
  }

  /** The unchecked case does arise: a second rejection of a bundle, say, is written over the first. */
  lemma SecondRejectionIsLate(cfg: Config, m: Model, id: int, raw: string, now: int, raw': string, now': int)
    requires Inv(m) && id in m.pending
    ensures LateFailure(Step(cfg, m, Reject(id, raw, now)), Reject(id, raw', now'), id)
  {
  }

  lemma RejectedTwice(cfg: Config, submission: Submission, raw: string, now: int)
    ensures !Lawful(Trace(cfg, EMPTY, [Submit(submission, None, None), Reject(1, raw, now), Reject(1, raw, now)], 1))
  {
    var submit, reject := Submit(submission, None, None), Reject(1, raw, now);
    var m := Step(cfg, EMPTY, submit);
    StepKeepsInv(cfg, EMPTY, submit);
    SecondRejectionIsLate(cfg, m, 1, raw, now, raw, now);
    assert !NeverLate(cfg, Step(cfg, m, reject), [reject], 1);
    assert [reject, reject][1..] == [reject];
    assert !NeverLate(cfg, m, [reject, reject], 1);
    assert [submit, reject, reject][1..] == [reject, reject];
    RunIsLawful(cfg, [submit, reject, reject], 1);
  }
}
