/** crates/lifecycle: exactly when losing slot updates is harmless. */
module LifecycleLateErrors {
  import opened Wrappers
  import opened Numbers
  import opened StreamEvents
  import opened LifecycleRows
  import opened LifecycleModel
  import opened LifecycleRecovery
  import opened LifecycleTraces
  import opened LifecyclePasses
  import opened LifecycleLossy

  /** What reaches the run without slot updates. */
  function Bare(acts: seq<Act>): seq<Act> {
    if acts == [] then []
    else (if IsSlot(acts[0]) then [] else [acts[0]]) + Bare(acts[1..])
  }

  lemma SameFirst(a: Act, full: seq<Act>, lossy: seq<Act>)
    requires SubRun(full, lossy)
    ensures SubRun([a] + full, [a] + lossy)
  {
    assert ([a] + full)[1..] == full && ([a] + lossy)[1..] == lossy;
  }

  lemma {:induction false} BareIsSubRun(acts: seq<Act>, a: Act)
    requires !IsSlot(a)
    ensures SubRun(acts + [a], Bare(acts) + [a])
  {
    if acts == [] {
      SameFirst(a, [], []);
      assert acts + [a] == [a] + [] && Bare(acts) + [a] == [a] + [];
    } else {
      BareIsSubRun(acts[1..], a);
      assert (acts + [a])[1..] == acts[1..] + [a];
      if !IsSlot(acts[0]) {
        SameFirst(acts[0], acts[1..] + [a], Bare(acts[1..]) + [a]);
        assert Bare(acts) + [a] == [acts[0]] + (Bare(acts[1..]) + [a]);
        assert acts + [a] == [acts[0]] + (acts[1..] + [a]);
      } else {
        assert Bare(acts) + [a] == Bare(acts[1..]) + [a];
      }
    }
  }

  lemma {:induction false} BareRunIs(cfg: Config, w: World, acts: seq<Act>)
    ensures ProceedAll(cfg, w, Bare(acts)) == BareRun(cfg, w, acts)
    decreases |acts|
  {
    if acts != [] {
      BareRunIs(cfg, BareStep(cfg, w, acts[0]), acts[1..]);
      if !IsSlot(acts[0]) {
        assert Bare(acts)[1..] == Bare(acts[1..]);
      } else {
        assert Bare(acts) == Bare(acts[1..]);
      }
    }
  }

  lemma {:induction false} TimelyPrefix(cfg: Config, f: World, b: World, acts: seq<Act>, i: nat)
    requires i <= |acts| && TimelyRun(cfg, f, b, acts)
    ensures TimelyRun(cfg, f, b, acts[..i])
    decreases |acts|
  {
    if i > 0 {
      TimelyPrefix(cfg, Proceed(cfg, f, acts[0]), BareStep(cfg, b, acts[0]), acts[1..], i - 1);
      assert acts[..i][1..] == acts[1..][..i - 1];
    }
  }

  // ---------------------------------------------------------------------------
  // The condition
  // ---------------------------------------------------------------------------

  ghost predicate NeverAhead(f: Model, l: Model) {
    && f.table.Keys == l.table.Keys
    && forall id :: id in f.table ==> l.table[id].status.Rank() <= f.table[id].status.Rank()
  }

  /** At no point of the run is any run that misses some of its slot updates ahead of it. */
  ghost predicate LosingIsHarmless(cfg: Config, full: seq<Act>) {
    forall i: nat, lossy: seq<Act> | i <= |full| && SubRun(full[..i], lossy) ::
      NeverAhead(ProceedAll(cfg, NEW_WORLD, full[..i]).model, ProceedAll(cfg, NEW_WORLD, lossy).model)
  }

  lemma {:induction false} FirstUntimely(cfg: Config, f: World, b: World, acts: seq<Act>) returns (k: nat)
    requires !TimelyRun(cfg, f, b, acts)
    ensures k < |acts| && TimelyRun(cfg, f, b, acts[..k])
    ensures Divides(ProceedAll(cfg, f, acts[..k]), BareRun(cfg, b, acts[..k]), acts[k])
    decreases |acts|
  {
    if Divides(f, b, acts[0]) {
      k := 0;
    } else {
      k := FirstUntimely(cfg, Proceed(cfg, f, acts[0]), BareStep(cfg, b, acts[0]), acts[1..]);
      assert acts[..k + 1][1..] == acts[1..][..k];
      k := k + 1;
    }
  }

  lemma DividedRows(f: Row, l: Row, f': Row, l': Row, op: Op, id: int)
    requires DividesRows(f, l, op) && Moves(f, f', op, id) && Moves(l, l', op, id)
    ensures f'.status == f.status && l'.status.Failed?
  {
  }

  /** An error on the stream that divides two runs leaves the one ahead as it is and fails the bundle in
      the other. */
  lemma DividedByStream(cfg: Config, f: Model, l: Model, op: Op, id: int)
    requires Inv(f) && Inv(l) && id in f.table && id in l.table && DividesRows(f.table[id], l.table[id], op)
    ensures !NeverAhead(Step(cfg, f, op), Step(cfg, l, op))
  {
    RowAfter(cfg, f, op, id);
    RowAfter(cfg, l, op, id);
    DividedRows(f.table[id], l.table[id], Step(cfg, f, op).table[id], Step(cfg, l, op).table[id], op, id);
  }

  lemma AnsweredError(cfg: Config, l: World, k: nat, id: int, st: Status, now: int)
    requires WorldOk(l) && Asked(l, k, id) && st.errHex.Some?
    ensures var t := Proceed(cfg, l, Answer(k, id, st, now)).model.table; id in t && t[id].status.Failed?
  {
    RowAfter(cfg, l.model, ApplyStatus(id, l.passes[k][id], st, now), id);
  }

  /** And so does an error answered to a pass of the other alone. */
  lemma DividedRuns(cfg: Config, f: World, l: World, a: Act)
    requires WorldOk(f) && WorldOk(l) && Divides(f, l, a)
    ensures !NeverAhead(Proceed(cfg, f, a).model, Proceed(cfg, l, a).model)
  {
    match a
    case Do(op) =>
      var id :| id in f.model.table && id in l.model.table && DividesRows(f.model.table[id], l.model.table[id], op);
      DividedByStream(cfg, f.model, l.model, op, id);
    case Answer(k, id, st, now) => AnsweredError(cfg, l, k, id, st, now);
  }

  /** A run and the same run without its slot updates, up to an error and with it. */
  lemma DividedAt(cfg: Config, before: seq<Act>, a: Act)
    requires Divides(ProceedAll(cfg, NEW_WORLD, before), BareRun(cfg, NEW_WORLD, before), a)
    ensures !NeverAhead(ProceedAll(cfg, NEW_WORLD, before + [a]).model,
                        ProceedAll(cfg, NEW_WORLD, Bare(before) + [a]).model)
  {
    BareRunIs(cfg, NEW_WORLD, before);
    ProceedAllKeepsOk(cfg, NEW_WORLD, before);
    ProceedAllKeepsOk(cfg, NEW_WORLD, Bare(before));
    DividedRuns(cfg, ProceedAll(cfg, NEW_WORLD, before), ProceedAll(cfg, NEW_WORLD, Bare(before)), a);
    ProceedSnoc(cfg, NEW_WORLD, before, a);
    ProceedSnoc(cfg, NEW_WORLD, Bare(before), a);
  }

  lemma UntimelyIsHarmful(cfg: Config, full: seq<Act>)
    requires !TimelyRun(cfg, NEW_WORLD, NEW_WORLD, full)
    ensures !LosingIsHarmless(cfg, full)
  {
    var k := FirstUntimely(cfg, NEW_WORLD, NEW_WORLD, full);
    var before, a := full[..k], full[k];
    DividedAt(cfg, before, a);
    BareIsSubRun(before, a);
    assert full[..k + 1] == before + [a];
  }

  /** Losing slot updates is harmless, whichever are lost and at whatever point one looks, if and only if
      there is no error of two kinds: one on the stream for a bundle that is Confirmed or Finalized and
      would still be Processed without slot updates, and one answered to a pass that found its bundle
      Finalized, where without slot updates it would have asked for it. */
  lemma HarmlessIffTimely(cfg: Config, full: seq<Act>)
    requires AllPlain(full)
    ensures LosingIsHarmless(cfg, full) <==> TimelyRun(cfg, NEW_WORLD, NEW_WORLD, full)
  {
    if TimelyRun(cfg, NEW_WORLD, NEW_WORLD, full) {
      forall i: nat, lossy: seq<Act> | i <= |full| && SubRun(full[..i], lossy)
        ensures NeverAhead(ProceedAll(cfg, NEW_WORLD, full[..i]).model, ProceedAll(cfg, NEW_WORLD, lossy).model)
      {
        TimelyPrefix(cfg, NEW_WORLD, NEW_WORLD, full, i);
        RunsStayClose(cfg, NEW_WORLD, NEW_WORLD, NEW_WORLD, full[..i], lossy, U64_MAX);
      }
    } else {
      UntimelyIsHarmful(cfg, full);
    }
  }

  // ---------------------------------------------------------------------------
  // Where the stream alone reports on bundles
  // ---------------------------------------------------------------------------

  predicate Advanced(s: Stage) {
    s.Confirmed? || s.Finalized?
  }

  ghost predicate Early(m: Model, a: Act) {
    a.Do? && LandedError(a.op) ==>
      forall id :: id in m.table && m.table[id].memoSignature == a.op.event.signature ==> !Advanced(m.table[id].status)
  }

  /** No error comes over the stream for a bundle already Confirmed or Finalized. */
  ghost predicate EarlyErrors(cfg: Config, w: World, acts: seq<Act>)
    decreases |acts|
  {
    acts == [] || (Early(w.model, acts[0]) && EarlyErrors(cfg, Proceed(cfg, w, acts[0]), acts[1..]))
  }

  predicate NoAnswers(acts: seq<Act>) {
    forall i :: 0 <= i < |acts| ==> !acts[i].Answer?
  }

  lemma {:induction false} EarlyIsTimely(cfg: Config, f: World, b: World, acts: seq<Act>)
    requires EarlyErrors(cfg, f, acts) && NoAnswers(acts)
    ensures TimelyRun(cfg, f, b, acts)
    decreases |acts|
  {
    if acts != [] {
      EarlyIsTimely(cfg, Proceed(cfg, f, acts[0]), BareStep(cfg, b, acts[0]), acts[1..]);
    }
  }

  ghost predicate NoneAdvanced(m: Model) {
    forall id :: id in m.table ==> !Advanced(m.table[id].status)
  }

  lemma BareAdvancesNone(cfg: Config, b: World, a: Act)
    requires WorldOk(b) && NoneAdvanced(b.model) && Plain(a) && !a.Answer?
    ensures NoneAdvanced(BareStep(cfg, b, a).model)
  {
    if a.Do? && !IsSlot(a) && !a.op.Submit? && !a.op.Crash? {
      StepAt(cfg, b.model, a.op);
      forall id | id in b.model.table ensures !Advanced(Step(cfg, b.model, a.op).table[id].status) {
        RowMoves(cfg, b.model, a.op, id);
      }
    }
  }

  lemma {:induction false} TimelyIsEarly(cfg: Config, f: World, b: World, acts: seq<Act>)
    requires WorldsClose(f, b, U64_MAX) && NoneAdvanced(b.model) && AllPlain(acts) && NoAnswers(acts)
    requires TimelyRun(cfg, f, b, acts)
    ensures EarlyErrors(cfg, f, acts)
    decreases |acts|
  {
    if acts != [] {
      var a := acts[0];
      assert Early(f.model, a) by {
        assert forall id :: id in f.model.table ==> RowsClose(f.model.table[id], b.model.table[id], U64_MAX);
      }
      BareAdvancesNone(cfg, b, a);
      if IsSlot(a) {
        FullProceeds(cfg, f, b, a, U64_MAX);
      } else {
        BothProceed(cfg, f, b, a, U64_MAX);
      }
      TimelyIsEarly(cfg, Proceed(cfg, f, a), BareStep(cfg, b, a), acts[1..]);
    }
  }

  /** With no answer to any pass the condition is simply that no error comes for a bundle already Confirmed
      or Finalized: nothing but a slot update takes a bundle that far. */
  lemma HarmlessIffErrorsAreEarly(cfg: Config, full: seq<Act>)
    requires AllPlain(full) && NoAnswers(full)
    ensures LosingIsHarmless(cfg, full) <==> EarlyErrors(cfg, NEW_WORLD, full)
  {
    HarmlessIffTimely(cfg, full);
    if EarlyErrors(cfg, NEW_WORLD, full) {
      EarlyIsTimely(cfg, NEW_WORLD, NEW_WORLD, full);
    }
    if TimelyRun(cfg, NEW_WORLD, NEW_WORLD, full) {
      TimelyIsEarly(cfg, NEW_WORLD, NEW_WORLD, full);
    }
  }

  predicate Succeeds(a: Act) {
    a.Do? && Success(a.op)
  }

  /** No error status is reported for a signature after a success for it. */
  ghost predicate NoLateErrors(acts: seq<Act>) {
    forall i, j :: 0 <= i < j < |acts| && Succeeds(acts[i]) && acts[j].Do? && LandedError(acts[j].op) ==>
      acts[i].op.event.signature != acts[j].op.event.signature
  }

  /** Every bundle that has landed has one of these signatures. */
  ghost predicate LandedAre(m: Model, ok: set<string>) {
    forall id :: id in m.table && Landed(m.table[id].status) ==> m.table[id].memoSignature in ok
  }

  function Succeeded(ok: set<string>, a: Act): set<string> {
    if Succeeds(a) then ok + {a.op.event.signature} else ok
  }

  lemma RowLands(cfg: Config, m: Model, op: Op, id: int)
    requires Inv(m) && id in m.table && Plain(Do(op)) && !op.Submit? && !op.Crash?
    ensures var row' := RowStep(cfg, m, op, id);
            && row'.memoSignature == m.table[id].memoSignature
            && (Landed(row'.status) ==>
                  Landed(m.table[id].status) || (Success(op) && op.event.signature == row'.memoSignature))
  {
    RowMoves(cfg, m, op, id);
  }

  lemma LandedNext(cfg: Config, w: World, a: Act, ok: set<string>)
    requires WorldOk(w) && LandedAre(w.model, ok) && Plain(a) && !a.Answer?
    ensures LandedAre(Proceed(cfg, w, a).model, Succeeded(ok, a))
  {
    if a.Do? && !a.op.Submit? && !a.op.Crash? {
      StepAt(cfg, w.model, a.op);
      forall id | id in w.model.table && Landed(RowStep(cfg, w.model, a.op, id).status)
        ensures RowStep(cfg, w.model, a.op, id).memoSignature in Succeeded(ok, a)
      {
        RowLands(cfg, w.model, a.op, id);
      }
    }
  }

  lemma {:induction false} NoLateErrorsFrom(cfg: Config, w: World, acts: seq<Act>, ok: set<string>)
    requires WorldOk(w) && LandedAre(w.model, ok) && AllPlain(acts) && NoAnswers(acts) && NoLateErrors(acts)
    requires forall j :: 0 <= j < |acts| && acts[j].Do? && LandedError(acts[j].op) ==> acts[j].op.event.signature !in ok
    ensures EarlyErrors(cfg, w, acts)
    decreases |acts|
  {
    if acts != [] {
      LandedNext(cfg, w, acts[0], ok);
      ProceedKeepsOk(cfg, w, acts[0]);
      forall j | 0 <= j < |acts[1..]| && acts[1..][j].Do? && LandedError(acts[1..][j].op)
        ensures acts[1..][j].op.event.signature !in Succeeded(ok, acts[0])
      {
        assert acts[1..][j] == acts[j + 1];
      }
      NoLateErrorsFrom(cfg, Proceed(cfg, w, acts[0]), acts[1..], Succeeded(ok, acts[0]));
    }
  }

  /** It is enough that the stream reports no error for a signature after a success for it. */
  lemma NoLateErrorsAreEarly(cfg: Config, acts: seq<Act>)
    requires AllPlain(acts) && NoAnswers(acts) && NoLateErrors(acts)
    ensures EarlyErrors(cfg, NEW_WORLD, acts)
  {
    NoLateErrorsFrom(cfg, NEW_WORLD, acts, {});
  }

  /** Such an error at work: one that follows a success is ignored once the bundle is
      Confirmed, so a run that lost the Confirmed update fails a bundle that the full run keeps. */
  lemma LateErrorOvertakes(cfg: Config, submission: Submission, err: string, slot: u64)
    ensures var s := submission.memoSignature;
            var before := [Submit(submission, None, None), Event(TxStatus(s, slot, None, 0))];
            var late := Event(TxStatus(s, slot, Some(err), 0));
            var full, lossy := before + [Event(Slot(slot, SlotConfirmed, 0))] + [late], before + [late];
            var f, l := Run(cfg, EMPTY, full).table, Run(cfg, EMPTY, lossy).table;
            1 in f && 1 in l && f[1].status.Confirmed? && l[1].status.Failed?
  {
    var s := submission.memoSignature;
    var before := [Submit(submission, None, None), Event(TxStatus(s, slot, None, 0))];
    var confirm, late := Event(Slot(slot, SlotConfirmed, 0)), Event(TxStatus(s, slot, Some(err), 0));
    LandedOnce(cfg, submission, slot);
    RunSnoc(cfg, EMPTY, before, confirm);
    RunSnoc(cfg, EMPTY, before + [confirm], late);
    RunSnoc(cfg, EMPTY, before, late);
    LateError(cfg, Run(cfg, EMPTY, before), s, slot, err);
  }

  lemma LateError(cfg: Config, m: Model, s: string, slot: u64, err: string)
    requires Inv(m) && 1 in m.table && m.table[1].status.Processed?
    requires m.table[1].memoSignature == s && m.table[1].landedSlot == Some(AsI64(slot))
    ensures var late := Event(TxStatus(s, slot, Some(err), 0));
            var f, l := Step(cfg, Step(cfg, m, Event(Slot(slot, SlotConfirmed, 0))), late).table,
                Step(cfg, m, late).table;
            1 in f && 1 in l && f[1].status.Confirmed? && l[1].status.Failed?
  {
    var late := Event(TxStatus(s, slot, Some(err), 0));
    SlotAdvances(cfg, m, slot, SlotConfirmed);
    var m' := Step(cfg, m, Event(Slot(slot, SlotConfirmed, 0)));
    RowAfter(cfg, m, late, 1);
    RowAfter(cfg, m', late, 1);
    DividedRows(m'.table[1], m.table[1], Step(cfg, m', late).table[1], Step(cfg, m, late).table[1], late, 1);
  }

  /** A slot update for its own slot takes a Processed bundle to the level it reports. */
  lemma SlotAdvances(cfg: Config, m: Model, slot: u64, status: SlotStatus)
    requires Inv(m) && 1 in m.table && m.table[1].status.Processed? && m.table[1].landedSlot == Some(AsI64(slot))
    requires status.SlotConfirmed? || status.SlotFinalized?
    ensures var m' := Step(cfg, m, Event(Slot(slot, status, 0)));
            && Inv(m') && 1 in m'.table && m'.table[1].memoSignature == m.table[1].memoSignature
            && m'.table[1].status == if status.SlotConfirmed? then Stage.Confirmed else Stage.Finalized
  {
    RowAfter(cfg, m, Event(Slot(slot, status, 0)), 1);
  }

  /** The other kind of error at work: a pass does not ask for a bundle that a Finalized update has finished,
      and asks for it where the update was lost; the answer is an error. */
  lemma PassErrorOvertakes(cfg: Config, submission: Submission, slot: u64, st: Status, now: int)
    requires st.errHex.Some?
    ensures var landed := Event(TxStatus(submission.memoSignature, slot, None, 0));
            var before := DoAll([Submit(submission, None, None), landed]);
            var pass := [BeginPass(0), Answer(0, 1, st, now)];
            var finalized := [Do(Event(Slot(slot, SlotFinalized, 0)))];
            var f := ProceedAll(cfg, NEW_WORLD, before + finalized + pass).model.table;
            var l := ProceedAll(cfg, NEW_WORLD, before + pass).model.table;
            1 in f && 1 in l && f[1].status.Finalized? && l[1].status.Failed?
  {
    var ops := [Submit(submission, None, None), Event(TxStatus(submission.memoSignature, slot, None, 0))];
    var finalized := Event(Slot(slot, SlotFinalized, 0));
    var pass := [BeginPass(0), Answer(0, 1, st, now)];
    LandedOnce(cfg, submission, slot);
    DoAllIsRun(cfg, NEW_WORLD, ops);
    var w := ProceedAll(cfg, NEW_WORLD, DoAll(ops));
    SlotAdvances(cfg, w.model, slot, SlotFinalized);
    ProceedSnoc(cfg, NEW_WORLD, DoAll(ops), Do(finalized));
    ProceedAppend(cfg, NEW_WORLD, DoAll(ops) + [Do(finalized)], pass);
    ProceedAppend(cfg, NEW_WORLD, DoAll(ops), pass);
    OneAnswer(cfg, w, 1, st, now);
    OneAnswer(cfg, Proceed(cfg, w, Do(finalized)), 1, st, now);
  }

  /** A pass over one bundle, answered with an error. */
  lemma OneAnswer(cfg: Config, w: World, id: int, st: Status, now: int)
    requires Inv(w.model) && st.errHex.Some? && id in w.model.table
    ensures var w' := ProceedAll(cfg, w, [BeginPass(0), Answer(0, id, st, now)]);
            if w.model.table[id].status.Open() then id in w'.model.table && w'.model.table[id].status.Failed?
            else w'.model == w.model
  {
    var begun := Proceed(cfg, w, BeginPass(0));
    ProceedOne(cfg, w, BeginPass(0));
    ProceedSnoc(cfg, w, [BeginPass(0)], Answer(0, id, st, now));
    assert [BeginPass(0)] + [Answer(0, id, st, now)] == [BeginPass(0), Answer(0, id, st, now)];
    if w.model.table[id].status.Open() {
      RowAfter(cfg, w.model, ApplyStatus(id, begun.passes[0][id], st, now), id);
    }
  }

  /** A pass has read the row of a Processed bundle; before it applies the answer, which is an error, the
      stream finalizes the bundle. The finished bundle is failed, and its history is not lawful. */
  lemma ReconcileRace(cfg: Config, submission: Submission, slot: u64, err: string, now: int)
    ensures var read := [Submit(submission, None, None), Event(TxStatus(submission.memoSignature, slot, None, 0))];
            var finalized := read + [Event(Slot(slot, SlotFinalized, 0))];
            var m0, m1 := Run(cfg, EMPTY, read), Run(cfg, EMPTY, finalized);
            && 1 in m0.table && m0.table[1].status.Processed?
            && 1 in m1.table && m1.table[1].status.Finalized?
            && var applied := ApplyStatus(1, m0.table[1].status, SigStatus(slot, Processed, Some(err)), now);
               var m2 := Run(cfg, EMPTY, finalized + [applied]);
               && 1 in m2.table && m2.table[1].status.Failed?
               && !Lawful(Trace(cfg, EMPTY, finalized + [applied], 1))
  {
    var read := [Submit(submission, None, None), Event(TxStatus(submission.memoSignature, slot, None, 0))];
    var finalize := Event(Slot(slot, SlotFinalized, 0));
    var m0 := Run(cfg, EMPTY, read);
    LandedOnce(cfg, submission, slot);
    SlotAdvances(cfg, m0, slot, SlotFinalized);
    RunSnoc(cfg, EMPTY, read, finalize);
    var m1 := Step(cfg, m0, finalize);
    var applied := ApplyStatus(1, m0.table[1].status, SigStatus(slot, Processed, Some(err)), now);
    RunSnoc(cfg, EMPTY, read + [finalize], applied);
    ErrorFailsTerminal(cfg, m1, applied);
    if NeverLate(cfg, EMPTY, read + [finalize] + [applied], 1) {
      NeverLateSnoc(cfg, EMPTY, read + [finalize], applied, 1);
    }
    RunIsLawful(cfg, read + [finalize] + [applied], 1);
  }

  lemma ErrorFailsTerminal(cfg: Config, m: Model, op: Op)
    requires Inv(m) && op.ApplyStatus? && op.st.errHex.Some? && op.id in m.table && !m.table[op.id].status.Open()
    ensures LateFailure(m, op, op.id)
    ensures op.id in Step(cfg, m, op).table && Step(cfg, m, op).table[op.id].status.Failed?
  {
    StepIsLawful(cfg, m, op, op.id);
  }

  lemma LandedOnce(cfg: Config, submission: Submission, slot: u64)
    ensures var s := submission.memoSignature;
            var m := Run(cfg, EMPTY, [Submit(submission, None, None), Event(TxStatus(s, slot, None, 0))]);
            && Inv(m) && 1 in m.table && m.table[1].status.Processed?
            && m.table[1].memoSignature == submission.memoSignature && m.table[1].landedSlot == Some(AsI64(slot))
  {
    var submit, landed := Submit(submission, None, None), Event(TxStatus(submission.memoSignature, slot, None, 0));
    StepKeepsInv(cfg, EMPTY, submit);
    RunOne(cfg, EMPTY, submit);
    RowAfter(cfg, Step(cfg, EMPTY, submit), landed, 1);
    RunSnoc(cfg, EMPTY, [submit], landed);
    assert [submit] + [landed] == [submit, landed];
  }
}
