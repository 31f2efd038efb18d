/** crates/lifecycle: what a reconcile pass achieves, also when its view of the table is out of date. */
module LifecycleReconcile {
  import opened Wrappers
  import opened Numbers
  import opened Failure
  import opened LifecycleRows
  import opened LifecycleModel
  import opened LifecycleRecovery
  import opened LifecycleTraces

  lemma {:induction false} StagesNeverFall(cfg: Config, m: Model, ops: seq<Op>, id: int)
    requires Inv(m) && id in m.table
    ensures id in Run(cfg, m, ops).table
    ensures m.table[id].status.Rank() <= Run(cfg, m, ops).table[id].status.Rank()
    decreases |ops|
  {
    if ops != [] {
      StepIsLawful(cfg, m, ops[0], id);
      StepKeepsInv(cfg, m, ops[0]);
      StagesNeverFall(cfg, Step(cfg, m, ops[0]), ops[1..], id);
    }
  }

  function Stages(ws: seq<Write>): (r: seq<Stage>)
    ensures |r| == |ws|
  {
    if ws == [] then [] else Stages(ws[..|ws| - 1]) + [ws[|ws| - 1].Stage()]
  }

  lemma {:induction false} StagesConcat(a: seq<Write>, b: seq<Write>)
    ensures Stages(a + b) == Stages(a) + Stages(b)
  {
    if b == [] {
      assert a + b == a;
    } else {
      assert (a + b)[..|a + b| - 1] == a + b[..|b| - 1];
      StagesConcat(a, b[..|b| - 1]);
    }
  }

  /** The stages above `lo`, up to and including `hi`, in order. */
  function Climb(lo: Stage, hi: Stage): seq<Stage> {
    (if lo.Rank() < 1 <= hi.Rank() then [Stage.Processed] else [])
    + (if lo.Rank() < 2 <= hi.Rank() then [Stage.Confirmed] else [])
    + (if lo.Rank() < 3 <= hi.Rank() then [Stage.Finalized] else [])
  }

  /** The climbs to each level, by the level below. */
  lemma ClimbByStages(s: Stage)
    requires s.Open()
    ensures var made1 := if s.Submitted? then [Stage.Processed] else [];
            var made2 := made1 + if Higher(s, Stage.Processed).Processed? then [Stage.Confirmed] else [];
            && Climb(s, Stage.Processed) == made1
            && Climb(s, Stage.Confirmed) == made2
            && Climb(s, Stage.Finalized) == made2 + [Stage.Finalized]
  {
  }

  lemma StagesOfOne(w: Write)
    ensures Stages([w]) == [w.Stage()]
  {
  }

  lemma ConfirmingClimbs(e: Effect, id: int, at: int, source: Source)
    ensures Stages(ThenConfirming(e, id, at, source).writes) ==
      Stages(e.writes) + if e.after.Some? && e.after.value.state.Processed? then [Stage.Confirmed] else []
  {
    if e.after.Some? {
      var c := Confirming(id, e.after.value, at, source).writes;
      StagesConcat(e.writes, c);
      if c != [] {
        StagesOfOne(c[0]);
      }
    }
  }

  lemma FinalizingClimbs(e: Effect, id: int, at: int, source: Source)
    ensures Stages(ThenFinalizing(e, id, at, source).writes) ==
      Stages(e.writes) + if e.after.Some? && (e.after.value.state.Processed? || e.after.value.state.Confirmed?)
                         then [Stage.Finalized] else []
  {
    if e.after.Some? {
      var f := Finalizing(id, e.after.value, at, source).writes;
      StagesConcat(e.writes, f);
      if f != [] {
        StagesOfOne(f[0]);
      }
    }
  }

  /** Where a bundle stands after some of the marks: still tracked, at this stage, having made these writes. */
  ghost predicate StandsAt(e: Effect, s: Stage, made: seq<Stage>) {
    e.after.Some? && e.after.value.state == s && Stages(e.writes) == made
  }

  lemma MarkProcessedClimbs(id: int, p: Pending, slot: u64, now: int, marks: bool)
    requires p.state.Open() && (p.state.Submitted? ==> marks)
    ensures StandsAt(if marks then Processing(id, p, slot, now, FromReconcile) else Keep(p),
                     Higher(p.state, Stage.Processed), if p.state.Submitted? then [Stage.Processed] else [])
  {
  }

  lemma MarkConfirmedClimbs(e: Effect, id: int, now: int, s: Stage, made: seq<Stage>, marks: bool)
    requires StandsAt(e, s, made) && (s.Processed? || s.Confirmed?) && (s.Processed? ==> marks)
    ensures StandsAt(if marks then ThenConfirming(e, id, now, FromReconcile) else e, Stage.Confirmed,
                     made + if s.Processed? then [Stage.Confirmed] else [])
  {
    ConfirmingClimbs(e, id, now, FromReconcile);
  }

  /** A non-error status takes a bundle from its own stage to the reported one, through every stage
      between, whatever older stage the snapshot showed. */
  lemma ReconcilingClimbs(rules: Interpreter, id: int, p: Pending, snapshot: Stage, st: Status, now: int)
    requires p.state.Open() && st.errHex.None? && snapshot.Rank() <= p.state.Rank()
    ensures Stages(Reconciling(rules, id, p, snapshot, st, now).writes) == Climb(p.state, st.confirmation)
  {
    var seen := snapshot.Rank();
    MarkProcessedClimbs(id, p, st.slot, now, seen < 1);
    ClimbByStages(p.state);
    if !st.confirmation.Processed? {
      var e := if seen < 1 then Processing(id, p, st.slot, now, FromReconcile) else Keep(p);
      FurtherMarksClimb(e, id, now, Higher(p.state, Stage.Processed),
                        if p.state.Submitted? then [Stage.Processed] else [], seen < 2, st.confirmation.Finalized?);
    }
  }

  lemma FurtherMarksClimb(e: Effect, id: int, now: int, s: Stage, made: seq<Stage>, confirms: bool, finalizes: bool)
    requires StandsAt(e, s, made) && (s.Processed? || s.Confirmed?) && (s.Processed? ==> confirms)
    ensures var e' := if confirms then ThenConfirming(e, id, now, FromReconcile) else e;
            Stages((if finalizes then ThenFinalizing(e', id, now, FromReconcile) else e').writes) ==
            made + (if s.Processed? then [Stage.Confirmed] else []) + if finalizes then [Stage.Finalized] else []
  {
    MarkConfirmedClimbs(e, id, now, s, made, confirms);
    var e' := if confirms then ThenConfirming(e, id, now, FromReconcile) else e;
    FinalizingClimbs(e', id, now, FromReconcile);
  }

  function Higher(s: Stage, t: Stage): Stage {
    if s.Rank() < t.Rank() then t else s
  }

  lemma ClimbEnds(s: Stage, ws: seq<Write>, t: Stage)
    requires s.Open() && (t.Processed? || t.Confirmed? || t.Finalized?) && Stages(ws) == Climb(s, t)
    ensures StageAfter(s, ws) == Higher(s, t)
  {
    if ws != [] {
      assert Stages(ws)[|ws| - 1] == ws[|ws| - 1].Stage();
    }
  }

  /** A pass read the row at `m0`; any operations at all, crashes and other passes included, have
      happened by the time the status is applied at `m`. The bundle ends at the higher of its
      own stage and the reported one, with a write for each stage in between; one that has become
      terminal in the meantime is left alone, and so is every other bundle. */
  lemma ReconcileFromStaleSnapshot(cfg: Config, before: seq<Op>, meanwhile: seq<Op>, id: int, st: Status, now: int)
    requires id in Run(cfg, EMPTY, before).table && Run(cfg, EMPTY, before).table[id].status.Open()
    requires st.errHex.None?
    ensures var m0 := Run(cfg, EMPTY, before);
            var m := Run(cfg, m0, meanwhile);
            var op := ApplyStatus(id, m0.table[id].status, st, now);
            var m' := Step(cfg, m, op);
            && id in m.table && m'.table.Keys == m.table.Keys
            && (id in m.pending ==>
                  && Stages(WritesFor(cfg, m, op, id)) == Climb(m.table[id].status, st.confirmation)
                  && m'.table[id].status == Higher(m.table[id].status, st.confirmation))
            && (id !in m.pending ==> WritesFor(cfg, m, op, id) == [] && m'.table[id] == m.table[id])
            && (forall j :: j in m.table && j != id ==> m'.table[j] == m.table[j])
  {
    var m0 := Run(cfg, EMPTY, before);
    RunKeepsInv(cfg, EMPTY, before);
    StagesNeverFall(cfg, m0, meanwhile, id);
    RunKeepsInv(cfg, m0, meanwhile);
    var m := Run(cfg, m0, meanwhile);
    ApplyOne(cfg, m, id, m0.table[id].status, st, now);
  }

  lemma ApplyTouchesOne(cfg: Config, m: Model, id: int, snapshot: Stage, st: Status, now: int)
    ensures var m' := Step(cfg, m, ApplyStatus(id, snapshot, st, now));
            && m'.table.Keys == m.table.Keys
            && (forall j :: j in m.table && j != id ==> m'.table[j] == m.table[j])
  {
  }

  lemma ApplyOne(cfg: Config, m: Model, id: int, snapshot: Stage, st: Status, now: int)
    requires Inv(m) && id in m.table && snapshot.Rank() <= m.table[id].status.Rank() && st.errHex.None?
    ensures var op := ApplyStatus(id, snapshot, st, now);
            var m' := Step(cfg, m, op);
            && m'.table.Keys == m.table.Keys
            && (id in m.pending ==>
                  && Stages(WritesFor(cfg, m, op, id)) == Climb(m.table[id].status, st.confirmation)
                  && m'.table[id].status == Higher(m.table[id].status, st.confirmation))
            && (id !in m.pending ==> WritesFor(cfg, m, op, id) == [] && m'.table[id] == m.table[id])
            && (forall j :: j in m.table && j != id ==> m'.table[j] == m.table[j])
  {
    var op := ApplyStatus(id, snapshot, st, now);
    ApplyTouchesOne(cfg, m, id, snapshot, st, now);
    if id in m.pending {
      assert m.pending[id].state == m.table[id].status;
      ReconcilingClimbs(cfg.rules, id, m.pending[id], snapshot, st, now);
      StepIsLawful(cfg, m, op, id);
      ClimbEnds(m.table[id].status, WritesFor(cfg, m, op, id), st.confirmation);
    } else {
      StepAt(cfg, m, op);
    }
  }

  // ---------------------------------------------------------------------------
  // A whole pass
  // ---------------------------------------------------------------------------

  function OneStatus(table: Table, id: int, st: Option<Status>, at: int -> int): seq<Op>
    requires id in table
  {
    if st.Some? then [ApplyStatus(id, table[id].status, st.value, at(id))] else []
  }

  /** What one pass does: the statuses come back in the order of the ids asked for, each is applied
      against the stage its row had when the table was read, and absent statuses are skipped. */
  function PassOps(table: Table, ids: seq<int>, statuses: seq<Option<Status>>, at: int -> int): seq<Op>
    requires forall i :: 0 <= i < |ids| ==> ids[i] in table
  {
    if ids == [] || statuses == [] then []
    else OneStatus(table, ids[0], statuses[0], at) + PassOps(table, ids[1..], statuses[1..], at)
  }

  ghost predicate Distinct(ids: seq<int>) {
    forall i, j :: 0 <= i < j < |ids| ==> ids[i] != ids[j]
  }

  lemma OneStatusTouchesOne(cfg: Config, m: Model, table: Table, id: int, st: Option<Status>, at: int -> int)
    requires Inv(m) && id in table
    ensures var m' := Run(cfg, m, OneStatus(table, id, st, at));
            && Inv(m') && m'.table.Keys == m.table.Keys
            && (forall j :: j in m.table && j != id ==> m'.table[j] == m.table[j])
  {
    RunKeepsInv(cfg, m, OneStatus(table, id, st, at));
    if st.Some? {
      RunOne(cfg, m, OneStatus(table, id, st, at)[0]);
      ApplyTouchesOne(cfg, m, id, table[id].status, st.value, at(id));
    }
  }

  lemma {:induction false} PassSkips(cfg: Config, m: Model, table: Table, ids: seq<int>, statuses: seq<Option<Status>>,
                                     at: int -> int, id: int)
    requires Inv(m) && forall i :: 0 <= i < |ids| ==> ids[i] in table
    requires id in m.table && forall i :: 0 <= i < |ids| ==> ids[i] != id
    ensures var m' := Run(cfg, m, PassOps(table, ids, statuses, at));
            id in m'.table && m'.table[id] == m.table[id]
    decreases |ids|
  {
    if ids != [] && statuses != [] {
      var head := OneStatus(table, ids[0], statuses[0], at);
      OneStatusTouchesOne(cfg, m, table, ids[0], statuses[0], at);
      PassSkips(cfg, Run(cfg, m, head), table, ids[1..], statuses[1..], at, id);
      RunAppend(cfg, m, head, PassOps(table, ids[1..], statuses[1..], at));
    }
  }

  /** The stage at which a reported status leaves an open bundle. */
  function Settled(s: Stage, st: Status): Stage {
    if st.errHex.Some? then Stage.Failed else Higher(s, st.confirmation)
  }

  lemma SettlesOne(cfg: Config, m: Model, table: Table, id: int, st: Option<Status>, at: int -> int)
    requires Inv(m) && id in m.table && id in table && m.table[id] == table[id] && table[id].status.Open() && st.Some?
    ensures var m' := Run(cfg, m, OneStatus(table, id, st, at));
            id in m'.table && m'.table[id].status == Settled(table[id].status, st.value)
  {
    var op := ApplyStatus(id, table[id].status, st.value, at(id));
    RunOne(cfg, m, op);
    StepIsLawful(cfg, m, op, id);
    if st.value.errHex.None? {
      ApplyOne(cfg, m, id, table[id].status, st.value, at(id));
    } else {
      ErrorWrites(cfg, m, op);
    }
  }

  lemma ErrorWrites(cfg: Config, m: Model, op: Op)
    requires op.ApplyStatus? && op.st.errHex.Some?
    ensures StageAfter(Submitted, WritesFor(cfg, m, op, op.id)).Failed?
  {
  }

  /** One pass with nothing interleaved is complete: every open bundle whose status came back ends
      at the higher of its own and the reported stage, or Failed on a reported error. */
  lemma {:induction false} PassIsComplete(cfg: Config, m: Model, table: Table, ids: seq<int>,
                                          statuses: seq<Option<Status>>, at: int -> int, k: nat)
    requires Inv(m) && Distinct(ids) && forall i :: 0 <= i < |ids| ==> ids[i] in table
    requires k < |ids| && k < |statuses| && statuses[k].Some?
    requires ids[k] in m.table && m.table[ids[k]] == table[ids[k]] && table[ids[k]].status.Open()
    ensures var m' := Run(cfg, m, PassOps(table, ids, statuses, at));
            ids[k] in m'.table && m'.table[ids[k]].status == Settled(table[ids[k]].status, statuses[k].value)
    decreases |ids|
  {
    var head, rest := OneStatus(table, ids[0], statuses[0], at), PassOps(table, ids[1..], statuses[1..], at);
    var m1 := Run(cfg, m, head);
    OneStatusTouchesOne(cfg, m, table, ids[0], statuses[0], at);
    RunAppend(cfg, m, head, rest);
    if k == 0 {
      SettlesOne(cfg, m, table, ids[0], statuses[0], at);
      PassSkips(cfg, m1, table, ids[1..], statuses[1..], at, ids[0]);
    } else {
      assert ids[1..][k - 1] == ids[k];
      PassIsComplete(cfg, m1, table, ids[1..], statuses[1..], at, k - 1);
    }
  }
}
