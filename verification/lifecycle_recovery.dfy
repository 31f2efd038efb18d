/** crates/lifecycle: a crash followed by hydration cannot be told from no crash at all, as far as
    the table is concerned, until a sweep consults the one thing that is not stored: the clock. */
module LifecycleRecovery {
  import opened Wrappers
  import opened Numbers
  import opened StreamEvents
  import opened Failure
  import opened LifecycleRows
  import opened LifecycleModel

  ghost predicate NoSweeps(ops: seq<Op>) {
    forall i :: 0 <= i < |ops| ==> !ops[i].Sweep?
  }

  ghost predicate SameButClock(a: Model, b: Model) {
    a.pending == b.pending && a.table == b.table && a.nextId == b.nextId
  }

  lemma {:induction false} RunAppend(cfg: Config, m: Model, a: seq<Op>, b: seq<Op>)
    ensures Run(cfg, m, a + b) == Run(cfg, Run(cfg, m, a), b)
    decreases |a|
  {
    if a == [] {
      assert a + b == b;
    } else {
      assert (a + b)[1..] == a[1..] + b;
      RunAppend(cfg, Step(cfg, m, a[0]), a[1..], b);
    }
  }

  lemma RunOne(cfg: Config, m: Model, op: Op)
    ensures Run(cfg, m, [op]) == Step(cfg, m, op)
  {
  }

  lemma RunSnoc(cfg: Config, m: Model, ops: seq<Op>, op: Op)
    ensures Run(cfg, m, ops + [op]) == Step(cfg, Run(cfg, m, ops), op)
  {
    RunAppend(cfg, m, ops, [op]);
    RunOne(cfg, Run(cfg, m, ops), op);
  }

  lemma StepIgnoresClock(cfg: Config, a: Model, b: Model, op: Op)
    requires SameButClock(a, b) && !op.Sweep?
    ensures SameButClock(Step(cfg, a, op), Step(cfg, b, op))
  {
    if !op.Submit? && !op.Crash? {
      var a', b' := Step(cfg, a, op), Step(cfg, b, op);
      StepAt(cfg, a, op);
      StepAt(cfg, b, op);
      forall id ensures AfterStep(cfg, a, op, id) == AfterStep(cfg, b, op, id) {
      }
      forall id ensures Lookup(a'.pending, id) == Lookup(b'.pending, id) {
        assert Lookup(a'.pending, id) == AfterStep(cfg, a, op, id);
        assert Lookup(b'.pending, id) == AfterStep(cfg, b, op, id);
      }
      SamePending(a'.pending, b'.pending);
      assert a'.table == b'.table;
    }
  }

  lemma {:induction false} RunIgnoresClock(cfg: Config, a: Model, b: Model, ops: seq<Op>)
    requires SameButClock(a, b) && NoSweeps(ops)
    ensures SameButClock(Run(cfg, a, ops), Run(cfg, b, ops))
    decreases |ops|
  {
    if ops != [] {
      StepIgnoresClock(cfg, a, b, ops[0]);
      RunIgnoresClock(cfg, Step(cfg, a, ops[0]), Step(cfg, b, ops[0]), ops[1..]);
    }
  }

  /** Crash at any point of any run; whatever then happens, sweeps apart, leaves the same table
      and the same memory as it would have without the crash. */
  lemma CrashIsInvisible(cfg: Config, before: seq<Op>, after: seq<Op>)
    requires NoSweeps(after)
    ensures var m := Run(cfg, EMPTY, before);
            SameButClock(Run(cfg, m, after), Run(cfg, Step(cfg, m, Crash), after))
  {
    RunKeepsInv(cfg, EMPTY, before);
    var m := Run(cfg, EMPTY, before);
    RunIgnoresClock(cfg, m, Step(cfg, m, Crash), after);
  }

  /** Once a slot update at or above both clocks has come in, not even sweeps differ. */
  lemma CrashHealsAtNextSlot(cfg: Config, before: seq<Op>, between: seq<Op>, slot: u64, status: SlotStatus, at: int,
                             after: seq<Op>)
    requires NoSweeps(between)
    requires var m := Run(cfg, EMPTY, before);
             Run(cfg, m, between).clock <= slot && Run(cfg, Step(cfg, m, Crash), between).clock <= slot
    ensures var m := Run(cfg, EMPTY, before);
            var ops := between + [Event(Slot(slot, status, at))] + after;
            Run(cfg, m, ops) == Run(cfg, Step(cfg, m, Crash), ops)
  {
    var m := Run(cfg, EMPTY, before);
    var tick := Event(Slot(slot, status, at));
    CrashIsInvisible(cfg, before, between);
    var a, b := Run(cfg, m, between), Run(cfg, Step(cfg, m, Crash), between);
    StepIgnoresClock(cfg, a, b, tick);
    StepAt(cfg, a, tick);
    StepAt(cfg, b, tick);
    assert Step(cfg, a, tick) == Step(cfg, b, tick);
    forall s ensures Run(cfg, s, between + [tick] + after) == Run(cfg, Step(cfg, Run(cfg, s, between), tick), after) {
      RunAppend(cfg, s, between + [tick], after);
      RunAppend(cfg, s, between, [tick]);
      RunOne(cfg, Run(cfg, s, between), tick);
    }
  }

  /** A sweep fails a row or leaves it alone. */
  lemma SweptRow(cfg: Config, m: Model, id: int, at: int -> int)
    requires Inv(m) && id in m.table
    ensures var row := RowStep(cfg, m, Sweep(at), id);
            if id in m.pending && TimedOut(cfg.timeoutSlots, m.clock, m.pending[id]) then
              && m.table[id].status.Submitted? && row.status.Failed?
              && row.failure == Some(Classify(cfg.rules, SweepEvidence(m.pending[id], m.clock)))
              && row == m.table[id].(status := Failed, failure := row.failure, finalizedAt := row.finalizedAt)
            else row == m.table[id]
  {
    if id in m.pending && TimedOut(cfg.timeoutSlots, m.clock, m.pending[id]) {
      var verdict := Classify(cfg.rules, SweepEvidence(m.pending[id], m.clock));
      PersistOne(m.table[id], WriteFailed(id, verdict, None, None, None, at(id)));
    }
  }

  lemma SweptAlike(cfg: Config, m: Model, c: Model, id: int, at: int -> int)
    requires Inv(m) && Inv(c) && SameButClock(m, c) && id in m.table
    ensures RowStep(cfg, m, Sweep(at), id) == RowStep(cfg, c, Sweep(at), id)
       <==> (id in m.pending ==>
               (TimedOut(cfg.timeoutSlots, m.clock, m.pending[id])
                <==> TimedOut(cfg.timeoutSlots, c.clock, m.pending[id])))
  {
  }

  /** Two clocks time out the same bundles. */
  ghost predicate SameTimeouts(cfg: Config, m: Model, c: Model) {
    forall id :: id in m.pending ==>
      (TimedOut(cfg.timeoutSlots, m.clock, m.pending[id]) <==> TimedOut(cfg.timeoutSlots, c.clock, m.pending[id]))
  }

  lemma SweptTablesAlike(cfg: Config, m: Model, c: Model, at: int -> int)
    requires Inv(m) && Inv(c) && SameButClock(m, c)
    ensures Step(cfg, m, Sweep(at)).table == Step(cfg, c, Sweep(at)).table <==> SameTimeouts(cfg, m, c)
  {
    StepAt(cfg, m, Sweep(at));
    StepAt(cfg, c, Sweep(at));
    forall id | id in m.table
      ensures RowStep(cfg, m, Sweep(at), id) == RowStep(cfg, c, Sweep(at), id)
         <==> (id in m.pending ==>
                 (TimedOut(cfg.timeoutSlots, m.clock, m.pending[id])
                  <==> TimedOut(cfg.timeoutSlots, c.clock, m.pending[id])))
    {
      SweptAlike(cfg, m, c, id, at);
    }
    SameTable(Step(cfg, m, Sweep(at)).table, Step(cfg, c, Sweep(at)).table);
    assert forall id :: id in m.pending ==> id in m.table;
  }

  lemma SameTable(a: Table, b: Table)
    requires a.Keys == b.Keys
    ensures a == b <==> forall id :: id in a ==> a[id] == b[id]
  {
    if forall id :: id in a ==> a[id] == b[id] {
      assert forall id :: id in a <==> id in a.Keys;
      assert forall id :: id in b <==> id in b.Keys;
    }
  }

  /** A sweep right after the crash leaves the same table exactly when both clocks time out the
      same bundles. */
  lemma SweepAfterCrash(cfg: Config, before: seq<Op>, at: int -> int)
    ensures var m := Run(cfg, EMPTY, before);
      (Step(cfg, m, Sweep(at)).table == Step(cfg, Step(cfg, m, Crash), Sweep(at)).table)
      <==> forall id :: id in m.pending ==>
             (TimedOut(cfg.timeoutSlots, m.clock, m.pending[id])
              <==> TimedOut(cfg.timeoutSlots, HydratedClock(m.table), m.pending[id]))
  {
    RunKeepsInv(cfg, EMPTY, before);
    var m := Run(cfg, EMPTY, before);
    StepKeepsInv(cfg, m, Crash);
    SweptTablesAlike(cfg, m, Step(cfg, m, Crash), at);
  }

  /** At every sweep of a continuation both clocks time out the same bundles. */
  ghost predicate SweepsAgree(cfg: Config, m: Model, c: Model, ops: seq<Op>)
    decreases |ops|
  {
    ops == [] ||
    (&& (ops[0].Sweep? ==> SameTimeouts(cfg, m, c))
     && SweepsAgree(cfg, Step(cfg, m, ops[0]), Step(cfg, c, ops[0]), ops[1..]))
  }

  /** Two runs of the same operations have the same table at every point. */
  ghost predicate SameTables(cfg: Config, m: Model, c: Model, ops: seq<Op>) {
    forall i: nat :: i <= |ops| ==> Run(cfg, m, ops[..i]).table == Run(cfg, c, ops[..i]).table
  }

  lemma SameTablesTail(cfg: Config, m: Model, c: Model, ops: seq<Op>)
    requires ops != [] && m.table == c.table
    ensures SameTables(cfg, m, c, ops) <==> SameTables(cfg, Step(cfg, m, ops[0]), Step(cfg, c, ops[0]), ops[1..])
  {
    var m', c' := Step(cfg, m, ops[0]), Step(cfg, c, ops[0]);
    forall i: nat | i <= |ops[1..]|
      ensures Run(cfg, m, ops[..i + 1]) == Run(cfg, m', ops[1..][..i])
      ensures Run(cfg, c, ops[..i + 1]) == Run(cfg, c', ops[1..][..i])
    {
      assert ops[..i + 1][1..] == ops[1..][..i];
    }
    if SameTables(cfg, m, c, ops) {
      forall i: nat | i <= |ops[1..]| ensures Run(cfg, m', ops[1..][..i]).table == Run(cfg, c', ops[1..][..i]).table {
        assert Run(cfg, m, ops[..i + 1]).table == Run(cfg, c, ops[..i + 1]).table;
      }
    }
    if SameTables(cfg, m', c', ops[1..]) {
      forall i: nat | i <= |ops| ensures Run(cfg, m, ops[..i]).table == Run(cfg, c, ops[..i]).table {
        if i > 0 {
          assert Run(cfg, m', ops[1..][..i - 1]).table == Run(cfg, c', ops[1..][..i - 1]).table;
        }
      }
    }
  }

  lemma SweepStaysSame(cfg: Config, m: Model, c: Model, at: int -> int)
    requires Inv(m) && Inv(c) && SameButClock(m, c) && SameTimeouts(cfg, m, c)
    ensures SameButClock(Step(cfg, m, Sweep(at)), Step(cfg, c, Sweep(at)))
  {
    SweptTablesAlike(cfg, m, c, at);
    StepKeepsInv(cfg, m, Sweep(at));
    StepKeepsInv(cfg, c, Sweep(at));
    StepAt(cfg, m, Sweep(at));
    StepAt(cfg, c, Sweep(at));
  }

  lemma {:induction false} SweepsDecide(cfg: Config, m: Model, c: Model, ops: seq<Op>)
    requires Inv(m) && Inv(c) && SameButClock(m, c)
    ensures SameTables(cfg, m, c, ops) <==> SweepsAgree(cfg, m, c, ops)
    decreases |ops|
  {
    if ops != [] {
      var op := ops[0];
      StepKeepsInv(cfg, m, op);
      StepKeepsInv(cfg, c, op);
      SameTablesTail(cfg, m, c, ops);
      if op.Sweep? && !SameTimeouts(cfg, m, c) {
        SweptTablesAlike(cfg, m, c, op.at);
        FirstTables(cfg, Step(cfg, m, op), Step(cfg, c, op), ops[1..]);
      } else {
        if op.Sweep? {
          SweepStaysSame(cfg, m, c, op.at);
        } else {
          StepIgnoresClock(cfg, m, c, op);
        }
        SweepsDecide(cfg, Step(cfg, m, op), Step(cfg, c, op), ops[1..]);
      }
    }
  }

  lemma FirstTables(cfg: Config, m: Model, c: Model, ops: seq<Op>)
    requires m.table != c.table
    ensures !SameTables(cfg, m, c, ops)
  {
    assert Run(cfg, m, ops[..0]).table != Run(cfg, c, ops[..0]).table;
  }

  /** Over a continuation of any kind, the crash leaves the table as it would have been at every point, if
      and only if at each of its sweeps the rebuilt clock times out the bundles that the lost one would. */
  lemma CrashWithSweeps(cfg: Config, before: seq<Op>, after: seq<Op>)
    ensures var m := Run(cfg, EMPTY, before);
            var c := Step(cfg, m, Crash);
            SameTables(cfg, m, c, after) <==> SweepsAgree(cfg, m, c, after)
  {
    RunKeepsInv(cfg, EMPTY, before);
    var m := Run(cfg, EMPTY, before);
    StepKeepsInv(cfg, m, Crash);
    SweepsDecide(cfg, m, Step(cfg, m, Crash), after);
  }

  /** And the clocks can disagree: a bundle swept without the crash survives the sweep after it. */
  lemma SweepsCanDiffer(cfg: Config, submission: Submission, at: int -> int)
    requires submission.blockhashFetchedAtSlot == 0 && cfg.timeoutSlots < U64_MAX
    ensures var tick := Event(Slot(cfg.timeoutSlots + 1, SlotProcessed, 0));
            var m := Run(cfg, EMPTY, [Submit(submission, None, None), tick]);
            var swept, recovered := Step(cfg, m, Sweep(at)).table, Step(cfg, Step(cfg, m, Crash), Sweep(at)).table;
            1 in swept && swept[1].status.Failed? && 1 in recovered && recovered[1].status.Submitted?
  {
    var submit, tick := Submit(submission, None, None), Event(Slot(cfg.timeoutSlots + 1, SlotProcessed, 0));
    var m := Run(cfg, EMPTY, [submit, tick]);
    AfterOneTick(cfg, submission);
    RunKeepsInv(cfg, EMPTY, [submit, tick]);
    StepKeepsInv(cfg, m, Crash);
    FreshRowClock(submission);
    SweptOnly(cfg, m, submission, at);
    SweptOnly(cfg, Step(cfg, m, Crash), submission, at);
  }

  lemma FreshRowClock(submission: Submission)
    requires submission.blockhashFetchedAtSlot == 0
    ensures HydratedClock(map[1 := NewRow(submission, None, None)]) == 0
  {
  }

  lemma SweptOnly(cfg: Config, m: Model, submission: Submission, at: int -> int)
    requires Inv(m) && m.table == map[1 := NewRow(submission, None, None)] && submission.blockhashFetchedAtSlot == 0
    ensures var swept := Step(cfg, m, Sweep(at)).table;
            1 in swept && swept[1].status == if m.clock > cfg.timeoutSlots then Stage.Failed else Stage.Submitted
  {
  }

  lemma AfterOneTick(cfg: Config, submission: Submission)
    requires cfg.timeoutSlots < U64_MAX
    ensures var tick := Event(Slot(cfg.timeoutSlots + 1, SlotProcessed, 0));
            var m := Run(cfg, EMPTY, [Submit(submission, None, None), tick]);
            m.table == map[1 := NewRow(submission, None, None)] && m.clock == cfg.timeoutSlots + 1
  {
    var submit, tick := Submit(submission, None, None), Event(Slot(cfg.timeoutSlots + 1, SlotProcessed, 0));
    var s := Step(cfg, EMPTY, submit);
    var row := NewRow(submission, None, None);
    assert s.table == map[1 := row] && s.clock == 0 && s.pending == map[1 := NewPending(submission, None, None)];
    StepAt(cfg, s, tick);
    assert RowStep(cfg, s, tick, 1) == row;
    assert Step(cfg, s, tick).table == map[1 := row];
    assert [submit, tick][1..] == [tick];
    RunOne(cfg, s, tick);
  }
}
