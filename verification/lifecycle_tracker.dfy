/** crates/lifecycle: the tracker over its database, each operation proved to be one step of the
    value-level machine. A step is a lock section together with its writes, in order. */
module LifecycleTracking {
  import opened Wrappers
  import opened Numbers
  import opened StreamEvents
  import opened Failure
  import opened LifecycleRows
  import opened LifecycleModel
  import opened LifecycleInner
  import opened LifecycleRecovery
  import opened LifecycleReconcile

  /** A table as earlier runs leave it: well-kept rows, and no signature open twice. */
  ghost predicate Recoverable(table: Table) {
    && (forall id :: id in table ==> RowOk(table[id]))
    && (forall i, j |
          i in table && j in table && table[i].status.Open() && table[j].status.Open() && i != j ::
          table[i].memoSignature != table[j].memoSignature)
  }

  /** What a step does to any id at all, tracked or not. */
  function EffectAt(cfg: Config, m: Model, op: Op, id: int): Effect {
    Effect(AfterStep(cfg, m, op, id), WritesFor(cfg, m, op, id))
  }

  predicate Fresh(m: Model, op: Op) {
    op.Submit? ==> forall id :: id in m.pending ==> m.pending[id].memoSignature != op.submission.memoSignature
  }

  /** Every bundle submitted has a signature that no bundle tracked at the time has. */
  ghost predicate FreshRun(cfg: Config, m: Model, ops: seq<Op>)
    decreases |ops|
  {
    ops == [] || (Fresh(m, ops[0]) && FreshRun(cfg, Step(cfg, m, ops[0]), ops[1..]))
  }

  lemma {:induction false} FreshIgnoresClock(cfg: Config, a: Model, b: Model, ops: seq<Op>)
    requires SameButClock(a, b) && NoSweeps(ops) && FreshRun(cfg, a, ops)
    ensures FreshRun(cfg, b, ops)
    decreases |ops|
  {
    if ops != [] {
      StepIgnoresClock(cfg, a, b, ops[0]);
      FreshIgnoresClock(cfg, Step(cfg, a, ops[0]), Step(cfg, b, ops[0]), ops[1..]);
    }
  }

  /** A step is known once its effect on every bundle has been carried out. */
  lemma CommitIs(cfg: Config, m: Model, op: Op, ws: seq<Write>, m': Model)
    requires !op.Submit? && !op.Crash? && !op.JitoStatus?
    requires m'.nextId == m.nextId && m'.clock == NextClock(m.clock, op)
    requires forall id :: Matches(m'.pending, ws, id, EffectAt(cfg, m, op, id))
    requires m'.table.Keys == m.table.Keys
    requires forall id :: id in m.table ==> m'.table[id] == PersistAll(m.table[id], Select(ws, id))
    ensures m' == Step(cfg, m, op)
  {
    StepAt(cfg, m, op);
    var s := Step(cfg, m, op);
    forall id ensures Lookup(m'.pending, id) == Lookup(s.pending, id) && Select(ws, id) == WritesFor(cfg, m, op, id) {
      assert Matches(m'.pending, ws, id, EffectAt(cfg, m, op, id));
      assert Lookup(s.pending, id) == AfterStep(cfg, m, op, id);
    }
    SamePending(m'.pending, s.pending);
    assert m'.table == s.table;
  }

  lemma JitoStatusIs(cfg: Config, m: Model, id: int, status: string)
    ensures Step(cfg, m, JitoStatus(id, status)) == m.(
              pending := if id in m.pending then m.pending[id := m.pending[id].(jitoInflight := Some(status))]
                  else m.pending,
              table := if id in m.table then m.table[id := m.table[id].(jitoInflightStatus := Some(status))]
                  else m.table)
  {
  }

  /** A status polled for a bundle that is no longer tracked is written all the same. */
  lemma JitoStatusReachesTerminalRow(cfg: Config, m: Model, id: int, status: string)
    requires Inv(m) && id in m.table && !m.table[id].status.Open()
    ensures Step(cfg, m, JitoStatus(id, status)) ==
            m.(table := m.table[id := m.table[id].(jitoInflightStatus := Some(status))])
  {
    JitoStatusIs(cfg, m, id, status);
    assert id !in m.pending;
  }

  lemma SelectOne(w: Write, id: int)
    ensures Select([w], id) == if w.id == id then [w] else []
  {
  }

  lemma PersistNext(row: Row, ws: seq<Write>, w: Write, id: int)
    ensures PersistAll(row, Select(ws + [w], id)) ==
      if w.id == id then PersistRow(PersistAll(row, Select(ws, id)), w) else PersistAll(row, Select(ws, id))
  {
    SelectConcat(ws, [w], id);
    SelectOne(w, id);
    if w.id == id {
      PersistConcat(row, Select(ws, id), [w]);
      PersistOne(PersistAll(row, Select(ws, id)), w);
    } else {
      assert Select(ws + [w], id) == Select(ws, id);
    }
  }

  /** The part of a table that hydration has already read. */
  function Restrict(table: Table, ids: seq<int>): Table {
    map id | id in table && id in ids :: table[id]
  }

  /** The ids of the open rows, in whatever order the query returns them. */
  method SelectOpen(table: Table) returns (ids: seq<int>)
    ensures forall id :: id in ids <==> id in table && table[id].status.Open()
    ensures forall i :: 0 <= i < |ids| ==> ids[i] in table && table[ids[i]].status.Open()
    ensures Distinct(ids)
  {
    ids := Elements(set id | id in table && table[id].status.Open());
  }

  /** Rebuild the in-memory state from the open rows of a table, read in any order. */
  method Hydrate(table: Table) returns (inner: Inner)
    ensures fresh(inner)
    ensures inner.pending == HydratedPending(table)
    ensures inner.lastObservedSlot == HydratedClock(table)
    ensures Recoverable(table) ==> inner.Valid()
  {
    inner := new Inner();
    var ids := SelectOpen(table);
    for i := 0 to |ids|
      invariant fresh(inner)
      invariant inner.pending == HydratedPending(Restrict(table, ids[..i]))
      invariant IsHydratedClock(Restrict(table, ids[..i]), inner.lastObservedSlot)
      invariant Recoverable(table) ==> inner.Valid()
    {
      HydrateNext(table, ids, i, inner.lastObservedSlot);
      inner.Load(ids[i], FromRow(table[ids[i]]));
    }
    assert ids[..|ids|] == ids;
    SameHydration(table, ids, inner.lastObservedSlot);
  }

  /** The next row of a well-kept table fits beside those already read; it extends the rebuilt map and
      raises the rebuilt clock. */
  lemma HydrateNext(table: Table, ids: seq<int>, i: nat, c: u64)
    requires i < |ids| && Distinct(ids)
    requires forall k :: 0 <= k < |ids| ==> ids[k] in table && table[ids[k]].status.Open()
    requires IsHydratedClock(Restrict(table, ids[..i]), c)
    ensures var part, part', row := Restrict(table, ids[..i]), Restrict(table, ids[..i + 1]), table[ids[i]];
            && HydratedPending(part') == HydratedPending(part)[ids[i] := FromRow(row)]
            && IsHydratedClock(part', Max(c, RowSlot(row)))
            && (Recoverable(table) ==> Loadable(HydratedPending(part), ids[i], FromRow(row)))
  {
    assert ids[..i + 1] == ids[..i] + [ids[i]];
    HydrateOne(table, ids[..i], ids[i], c);
  }

  lemma HydrateOne(table: Table, done: seq<int>, id: int, c: u64)
    requires id in table && table[id].status.Open()
    requires IsHydratedClock(Restrict(table, done), c)
    ensures HydratedPending(Restrict(table, done + [id])) ==
            HydratedPending(Restrict(table, done))[id := FromRow(table[id])]
    ensures IsHydratedClock(Restrict(table, done + [id]), Max(c, RowSlot(table[id])))
  {
    var part, part' := Restrict(table, done), Restrict(table, done + [id]);
    assert id in part';
    if c > RowSlot(table[id]) {
      var j :| j in part && part[j].status.Open() && RowSlot(part[j]) == c;
      assert j in part';
    }
    forall j | j in part' && part'[j].status.Open() ensures RowSlot(part'[j]) <= Max(c, RowSlot(table[id])) {
      assert j != id ==> j in part;
    }
  }

  lemma SameHydration(table: Table, done: seq<int>, c: u64)
    requires forall id :: id in done <==> id in table && table[id].status.Open()
    requires IsHydratedClock(Restrict(table, done), c)
    ensures HydratedPending(Restrict(table, done)) == HydratedPending(table)
    ensures HydratedClock(table) == c
  {
    var part := Restrict(table, done);
    forall id | id in table && table[id].status.Open() ensures id in part && RowSlot(part[id]) <= c {
    }
    HydratedClockIsUnique(table, c);
  }

  class LifecycleTracker {
    const cfg: Config
    var inner: Inner
    var table: Table
    var nextId: int

    ghost function View(): Model
      reads this, inner
    {
      Model(inner.pending, inner.lastObservedSlot, table, nextId)
    }

    ghost predicate Valid()
      reads this, inner
    {
      inner.Valid() && Inv(View())
    }

    /** A tracker over a database that may hold the rows of earlier runs. */
    constructor (cfg: Config, table: Table, nextId: int)
      requires Recoverable(table) && forall id :: id in table ==> id < nextId
      ensures Valid() && fresh(inner) && this.cfg == cfg
      ensures View() == Model(HydratedPending(table), HydratedClock(table), table, nextId)
    {
      var hydrated := Hydrate(table);
      this.cfg := cfg;
      this.inner, this.table, this.nextId := hydrated, table, nextId;
    }

    /** The process dies and a new one rebuilds its memory from the table. */
    method Restart()
      requires Valid()
      modifies this
      ensures Valid() && fresh(inner) && View() == Step(cfg, old(View()), Crash)
    {
      RowsAreRecoverable();
      inner := Hydrate(table);
      StepKeepsInv(cfg, old(View()), Crash);
    }

    lemma RowsAreRecoverable()
      requires Valid()
      ensures Recoverable(table)
    {
      forall i, j | i in table && j in table && table[i].status.Open() && table[j].status.Open() && i != j
        ensures table[i].memoSignature != table[j].memoSignature
      {
        assert i in inner.pending && j in inner.pending;
      }
    }

    /** The signature of a new bundle is one that no tracked bundle has. */
    method RecordSubmission(record: Submission, p50: Option<u64>, p75: Option<u64>) returns (id: int)
      requires Valid() && record.memoSignature !in inner.bySig
      modifies this, inner
      ensures Valid() && inner == old(inner)
      ensures id == old(nextId) && View() == Step(cfg, old(View()), Submit(record, p50, p75))
    {
      StepKeepsInv(cfg, View(), Submit(record, p50, p75));
      id := nextId;
      table := table[id := NewRow(record, p50, p75)];
      nextId := nextId + 1;
      inner.Track(id, NewPending(record, p50, p75));
    }

    method RecordJitoStatus(id: int, status: string)
      requires Valid()
      modifies this, inner
      ensures Valid() && inner == old(inner)
      ensures View() == Step(cfg, old(View()), JitoStatus(id, status))
    {
      ghost var m, op := View(), JitoStatus(id, status);
      StepKeepsInv(cfg, m, op);
      inner.NoteJitoStatus(id, status);
      if id in table {
        table := table[id := table[id].(jitoInflightStatus := Some(status))];
      }
      JitoStatusIs(cfg, m, id, status);
    }

    /** Carry out writes in order; each row sees its own. */
    method PersistWrites(ws: seq<Write>)
      modifies this`table
      ensures table.Keys == old(table).Keys
      ensures forall id :: id in table ==> table[id] == PersistAll(old(table)[id], Select(ws, id))
    {
      ghost var before := table;
      for i := 0 to |ws|
        invariant table.Keys == before.Keys
        invariant forall id :: id in table ==> table[id] == PersistAll(before[id], Select(ws[..i], id))
      {
        var w := ws[i];
        table := Persist(table, w);
        assert ws[..i + 1] == ws[..i] + [w];
        forall id | id in table ensures PersistAll(before[id], Select(ws[..i + 1], id)) ==
            var row := PersistAll(before[id], Select(ws[..i], id));
            if w.id == id then PersistRow(row, w) else row
        {
          PersistNext(before[id], ws[..i], w, id);
        }
      }
      assert ws[..|ws|] == ws;
    }

    method RecordRejection(id: int, rawError: string, now: int)
      requires Valid()
      modifies this, inner
      ensures Valid() && inner == old(inner)
      ensures View() == Step(cfg, old(View()), Reject(id, rawError, now))
    {
      ghost var m, op := View(), Reject(id, rawError, now);
      StepKeepsInv(cfg, m, op);
      inner.Forget(id, {});
      assert {} - {id} == {};
      var w := WriteFailed(id, Classify(cfg.rules, SubmitRejection(rawError)), None, None, None, now);
      PersistWrites([w]);
      FailureIs(cfg, m, op, id, w);
      CommitIs(cfg, m, op, [w], View());
    }

    method IngestAndPersist(event: StreamEvent)
      requires Valid()
      modifies this, inner
      ensures Valid() && inner == old(inner)
      ensures View() == Step(cfg, old(View()), Event(event))
    {
      ghost var m, op := View(), Event(event);
      StepKeepsInv(cfg, m, op);
      var ws := inner.ApplyEvent(cfg.rules, event);
      PersistWrites(ws);
      forall j ensures Matches(inner.pending, ws, j, EffectAt(cfg, m, op, j)) {
        assert EffectAt(cfg, m, op, j) == EventEffect(cfg.rules, m.pending, j, event);
      }
      CommitIs(cfg, m, op, ws, View());
    }

    /** A sweep reports exactly the bundles it fails. */
    method CheckTimeouts(at: int -> int) returns (ids: seq<int>)
      requires Valid()
      modifies this, inner
      ensures Valid() && inner == old(inner)
      ensures View() == Step(cfg, old(View()), Sweep(at))
      ensures forall id :: id in ids <==>
        id in old(inner.pending) && TimedOut(cfg.timeoutSlots, old(inner.lastObservedSlot), old(inner.pending)[id])
      ensures forall i, j :: 0 <= i < j < |ids| ==> ids[i] != ids[j]
    {
      ghost var m, op := View(), Sweep(at);
      StepKeepsInv(cfg, m, op);
      var last := inner.lastObservedSlot;
      ids := Elements(set id | id in inner.pending && TimedOut(cfg.timeoutSlots, last, inner.pending[id]));
      var ws := FailTimedOut(ids, last, at);
      PersistWrites(ws);
      SweepIs(cfg, m, ids, inner.pending, ws, at);
      CommitIs(cfg, m, op, ws, View());
    }

    method FailTimedOut(ids: seq<int>, last: u64, at: int -> int) returns (ws: seq<Write>)
      requires inner.Valid() && Members(ids) <= inner.pending.Keys
      requires forall i, j :: 0 <= i < j < |ids| ==> ids[i] != ids[j]
      modifies inner
      ensures inner.Valid() && inner.lastObservedSlot == old(inner.lastObservedSlot)
      ensures AllMatch(old(inner.pending), inner.pending, ws, Members(ids), SweptAll(cfg, old(inner.pending), last, at))
    {
      ghost var before := inner.pending;
      ws := [];
      for i := 0 to |ids|
        invariant inner.Valid() && inner.lastObservedSlot == old(inner.lastObservedSlot)
        invariant AllMatch(before, inner.pending, ws, Members(ids[..i]), SweptAll(cfg, before, last, at))
      {
        var id := ids[i];
        SweepNext(cfg, before, inner.pending, ws, ids, i, last, at);
        var w := WriteFailed(id, Classify(cfg.rules, SweepEvidence(inner.pending[id], last)), None, None, None, at(id));
        inner.Forget(id, {});
        assert {} - {id} == {};
        ws := ws + [w];
      }
      assert ids[..|ids|] == ids;
    }

    /** One iteration of `reconcile`: `snapshot` is what the row said when the pass began. */
    method ApplySigStatus(id: int, snapshot: Stage, st: Status, now: int)
      requires Valid()
      modifies this, inner
      ensures Valid() && inner == old(inner)
      ensures View() == Step(cfg, old(View()), ApplyStatus(id, snapshot, st, now))
    {
      ghost var m, op := View(), ApplyStatus(id, snapshot, st, now);
      StepKeepsInv(cfg, m, op);
      var ws;
      if st.errHex.Some? {
        var verdict := Classify(cfg.rules, OnChainError(st.errHex.value, st.slot));
        var ms := if id in inner.pending then Some(now - inner.pending[id].submittedAt) else None;
        inner.Forget(id, {});
        assert {} - {id} == {};
        ws := [WriteFailed(id, verdict, Some(AsI64(st.slot)), Some(now), ms, now)];
        FailureIs(cfg, m, op, id, ws[0]);
      } else {
        ws := MarkUpTo(id, snapshot, st, now);
        MarksAre(cfg, m, inner.pending, id, snapshot, st, now, ws);
      }
      PersistWrites(ws);
      CommitIs(cfg, m, op, ws, View());
    }

    /** A whole pass: read the open rows, ask for their statuses, apply them one by one. `respond`
        is the remote node's answer, which may be shorter than the question. */
    method Reconcile(respond: seq<string> -> seq<Option<Status>>, at: int -> int) returns (ids: seq<int>)
      requires Valid()
      modifies this, inner
      ensures Valid() && inner == old(inner) && Distinct(ids)
      ensures forall id :: id in ids <==> id in old(table) && old(table)[id].status.Open()
      ensures forall i :: 0 <= i < |ids| ==> ids[i] in old(table)
      ensures View() == Run(cfg, old(View()), PassOps(old(table), ids, respond(Signatures(old(table), ids)), at))
    {
      ids := SelectOpen(table);
      ApplyAll(table, ids, respond(Signatures(table, ids)), at);
    }

    /** The loop of a pass, going by the rows as they were read. */
    method ApplyAll(rows: Table, ids: seq<int>, statuses: seq<Option<Status>>, at: int -> int)
      requires Valid() && forall i :: 0 <= i < |ids| ==> ids[i] in rows
      modifies this, inner
      ensures Valid() && inner == old(inner)
      ensures View() == Run(cfg, old(View()), PassOps(rows, ids, statuses, at))
    {
      var i := 0;
      ghost var all := Run(cfg, View(), PassOps(rows, ids, statuses, at));
      while i < |ids| && i < |statuses|
        invariant 0 <= i <= |ids| && i <= |statuses|
        invariant Valid() && inner == old(inner)
        invariant Run(cfg, View(), PassOps(rows, ids[i..], statuses[i..], at)) == all
      {
        PassStep(cfg, View(), rows, ids, statuses, at, i);
        if statuses[i].Some? {
          ApplySigStatus(ids[i], rows[ids[i]].status, statuses[i].value, at(ids[i]));
        }
        i := i + 1;
      }
    }

    /** Any operation; a submission has a signature that no tracked bundle has. */
    method Perform(op: Op)
      requires Valid() && Fresh(View(), op)
      modifies this, inner
      ensures Valid() && (inner == old(inner) || fresh(inner))
      ensures View() == Step(cfg, old(View()), op)
    {
      match op
      case Submit(record, p50, p75) =>
        SignatureIsOwned(inner.bySig, inner.pending, record.memoSignature);
        var _ := RecordSubmission(record, p50, p75);
      case JitoStatus(id, status) => RecordJitoStatus(id, status);
      case Reject(id, raw, now) => RecordRejection(id, raw, now);
      case Event(e) => IngestAndPersist(e);
      case Sweep(at) => var _ := CheckTimeouts(at);
      case ApplyStatus(id, snapshot, st, now) => ApplySigStatus(id, snapshot, st, now);
      case Crash => Restart();
    }

    method PerformAll(ops: seq<Op>)
      requires Valid() && FreshRun(cfg, View(), ops)
      modifies this, inner
      ensures Valid() && (inner == old(inner) || fresh(inner))
      ensures View() == Run(cfg, old(View()), ops)
    {
      ghost var m := View();
      for i := 0 to |ops|
        invariant Valid() && (inner == old(inner) || fresh(inner))
        invariant Run(cfg, View(), ops[i..]) == Run(cfg, m, ops)
        invariant FreshRun(cfg, View(), ops[i..])
      {
        assert ops[i..][0] == ops[i] && ops[i..][1..] == ops[i + 1..];
        Perform(ops[i]);
      }
    }

    method MarkUpTo(id: int, snapshot: Stage, st: Status, now: int) returns (ws: seq<Write>)
      requires inner.Valid() && st.errHex.None?
      modifies inner
      ensures inner.Valid() && inner.lastObservedSlot == old(inner.lastObservedSlot)
      ensures Reached(old(inner.pending), inner.pending, id,
                      if id !in old(inner.pending) then Effect(None, [])
                      else Reconciling(cfg.rules, id, old(inner.pending)[id], snapshot, st, now), ws)
    {
      ghost var before, e := inner.pending, KeepOf(inner.pending, id);
      ws := [];
      if st.confirmation.Rank() >= 1 && snapshot.Rank() < 1 {
        var w := inner.MarkProcessed(id, st.slot, now, FromReconcile);
        ws := AsSeq(w);
        e := if id in before then Processing(id, before[id], st.slot, now, FromReconcile) else e;
        assert Reached(before, inner.pending, id, e, ws);
      }
      if st.confirmation.Rank() >= 2 && snapshot.Rank() < 2 {
        ws := AlsoConfirm(id, now, before, e, ws);
        e := ThenConfirming(e, id, now, FromReconcile);
      }
      if st.confirmation.Rank() >= 3 && snapshot.Rank() < 3 {
        ws := AlsoFinalize(id, now, before, e, ws);
        e := ThenFinalizing(e, id, now, FromReconcile);
      }
    }

    method AlsoConfirm(id: int, now: int, ghost before: map<int, Pending>, ghost e: Effect, ws: seq<Write>)
      returns (ws': seq<Write>)
      requires inner.Valid() && Reached(before, inner.pending, id, e, ws)
      modifies inner
      ensures inner.Valid() && inner.lastObservedSlot == old(inner.lastObservedSlot)
      ensures Reached(before, inner.pending, id, ThenConfirming(e, id, now, FromReconcile), ws')
    {
      var w := inner.MarkConfirmed(id, now, FromReconcile, {});
      assert {} - {id} == {};
      ws' := ws + AsSeq(w);
    }

    method AlsoFinalize(id: int, now: int, ghost before: map<int, Pending>, ghost e: Effect, ws: seq<Write>)
      returns (ws': seq<Write>)
      requires inner.Valid() && Reached(before, inner.pending, id, e, ws)
      modifies inner
      ensures inner.Valid() && inner.lastObservedSlot == old(inner.lastObservedSlot)
      ensures Reached(before, inner.pending, id, ThenFinalizing(e, id, now, FromReconcile), ws')
    {
      var w := inner.MarkFinalized(id, now, FromReconcile, {});
      assert {} - {id} == {};
      ws' := ws + AsSeq(w);
    }
  }

  /** How far one bundle has been taken from where it was before. */
  ghost predicate Reached(before: map<int, Pending>, now: map<int, Pending>, id: int, e: Effect, ws: seq<Write>) {
    && (forall j :: j != id ==> Lookup(now, j) == Lookup(before, j))
    && Lookup(now, id) == e.after
    && ws == e.writes
  }

  lemma PassStep(cfg: Config, m: Model, table: Table, ids: seq<int>, statuses: seq<Option<Status>>, at: int -> int,
                 i: nat)
    requires forall k :: 0 <= k < |ids| ==> ids[k] in table
    requires i < |ids| && i < |statuses|
    ensures Run(cfg, m, PassOps(table, ids[i..], statuses[i..], at)) ==
      Run(cfg,
          if statuses[i].None? then m
          else Step(cfg, m, ApplyStatus(ids[i], table[ids[i]].status, statuses[i].value, at(ids[i]))),
          PassOps(table, ids[i + 1..], statuses[i + 1..], at))
  {
    var head := OneStatus(table, ids[i], statuses[i], at);
    assert ids[i..][1..] == ids[i + 1..] && statuses[i..][1..] == statuses[i + 1..];
    RunAppend(cfg, m, head, PassOps(table, ids[i + 1..], statuses[i + 1..], at));
    if statuses[i].Some? {
      RunOne(cfg, m, head[0]);
    }
  }

  function Signatures(table: Table, ids: seq<int>): (r: seq<string>)
    requires forall i :: 0 <= i < |ids| ==> ids[i] in table
    ensures |r| == |ids| && forall i :: 0 <= i < |ids| ==> r[i] == table[ids[i]].memoSignature
  {
    seq(|ids|, i requires 0 <= i < |ids| => table[ids[i]].memoSignature)
  }

  /** Two trackers on the same rows, the one with its memory intact and the other just restarted:
      the indices they hold may differ, since a bundle that reconcile confirmed stays in the live
      confirm index, but whatever operations follow, sweeps apart, their tables end up the same. */
  method CrashBisimulation(live: LifecycleTracker, ops: seq<Op>) returns (restarted: LifecycleTracker)
    requires live.Valid() && NoSweeps(ops) && FreshRun(live.cfg, live.View(), ops)
    modifies live, live.inner
    ensures live.Valid() && restarted.Valid()
    ensures live.table == restarted.table && live.inner.pending == restarted.inner.pending
    ensures live.View() == Run(live.cfg, old(live.View()), ops)
  {
    ghost var m := live.View();
    live.RowsAreRecoverable();
    restarted := new LifecycleTracker(live.cfg, live.table, live.nextId);
    RunIgnoresClock(live.cfg, m, restarted.View(), ops);
    FreshIgnoresClock(live.cfg, m, restarted.View(), ops);
    restarted.PerformAll(ops);
    live.PerformAll(ops);
  }

  lemma ReconcilingOwnsItsWrites(rules: Interpreter, pending: map<int, Pending>, id: int, snapshot: Stage, st: Status,
                                 now: int)
    requires id in pending
    ensures forall w :: w in Reconciling(rules, id, pending[id], snapshot, st, now).writes ==> w.id == id
  {
  }

  lemma {:induction false} SelectOwn(ws: seq<Write>, id: int, j: int)
    requires forall w :: w in ws ==> w.id == id
    ensures Select(ws, j) == if j == id then ws else []
  {
    if ws != [] {
      SelectOwn(ws[..|ws| - 1], id, j);
      assert ws == ws[..|ws| - 1] + [ws[|ws| - 1]];
    }
  }

  /** An unchecked failure: the bundle is dropped and its one write made, tracked or not. */
  lemma FailureIs(cfg: Config, m: Model, op: Op, id: int, w: Write)
    requires (op.Reject? || (op.ApplyStatus? && op.st.errHex.Some?)) && op.id == id && WritesFor(cfg, m, op, id) == [w]
    ensures forall j :: Matches(m.pending - {id}, [w], j, EffectAt(cfg, m, op, j))
  {
    forall j ensures Matches(m.pending - {id}, [w], j, EffectAt(cfg, m, op, j)) {
      SelectOne(w, j);
    }
  }

  lemma MarksAre(cfg: Config, m: Model, now: map<int, Pending>, id: int, snapshot: Stage, st: Status, at: int,
                 ws: seq<Write>)
    requires st.errHex.None?
    requires Reached(m.pending, now, id,
                     if id !in m.pending then Effect(None, [])
                     else Reconciling(cfg.rules, id, m.pending[id], snapshot, st, at), ws)
    ensures forall j :: Matches(now, ws, j, EffectAt(cfg, m, ApplyStatus(id, snapshot, st, at), j))
  {
    if id in m.pending {
      ReconcilingOwnsItsWrites(cfg.rules, m.pending, id, snapshot, st, at);
    }
    forall j ensures Matches(now, ws, j, EffectAt(cfg, m, ApplyStatus(id, snapshot, st, at), j)) {
      SelectOwn(ws, id, j);
    }
  }

  ghost function SweptAll(cfg: Config, pending: map<int, Pending>, last: u64, at: int -> int): int -> Effect {
    id => if id in pending then
            Effect(None, [WriteFailed(id, Classify(cfg.rules, SweepEvidence(pending[id], last)), None, None, None,
                                      at(id))])
          else Effect(None, [])
  }

  lemma SweepIs(cfg: Config, m: Model, ids: seq<int>, now: map<int, Pending>, ws: seq<Write>, at: int -> int)
    requires forall id :: id in ids <==> id in m.pending && TimedOut(cfg.timeoutSlots, m.clock, m.pending[id])
    requires AllMatch(m.pending, now, ws, Members(ids), SweptAll(cfg, m.pending, m.clock, at))
    ensures forall id :: Matches(now, ws, id, EffectAt(cfg, m, Sweep(at), id))
  {
    forall id ensures Matches(now, ws, id, EffectAt(cfg, m, Sweep(at), id)) {
      assert Matches(now, ws, id,
                     if id in Members(ids) then SweptAll(cfg, m.pending, m.clock, at)(id) else KeepOf(m.pending, id));
    }
  }

  lemma StillKept(before: map<int, Pending>, now: map<int, Pending>, ws: seq<Write>, ids: seq<int>, i: nat,
                  effects: int -> Effect)
    requires i < |ids| && forall a, b :: 0 <= a < b < |ids| ==> ids[a] != ids[b]
    requires AllMatch(before, now, ws, Members(ids[..i]), effects)
    ensures Lookup(now, ids[i]) == Lookup(before, ids[i]) && Select(ws, ids[i]) == []
  {
    assert ids[i] !in Members(ids[..i]);
    assert Matches(now, ws, ids[i], KeepOf(before, ids[i]));
  }

  lemma SweepOne(cfg: Config, before: map<int, Pending>, now: map<int, Pending>, ws: seq<Write>, w: Write,
                 done: set<int>, id: int, last: u64, at: int -> int)
    requires AllMatch(before, now, ws, done, SweptAll(cfg, before, last, at))
    requires id in before && Lookup(now, id) == Lookup(before, id) && Select(ws, id) == []
    requires w == WriteFailed(id, Classify(cfg.rules, SweepEvidence(before[id], last)), None, None, None, at(id))
    ensures AllMatch(before, now - {id}, ws + [w], done + {id}, SweptAll(cfg, before, last, at))
  {
    AllMatchNext(before, now, now - {id}, ws, Some(w), done, id, SweptAll(cfg, before, last, at));
  }

  /** The next bundle a sweep fails is still as it was before the sweep. */
  lemma SweepNext(cfg: Config, before: map<int, Pending>, now: map<int, Pending>, ws: seq<Write>, ids: seq<int>, i: nat,
                  last: u64, at: int -> int)
    requires i < |ids| && Members(ids) <= before.Keys
    requires forall a, b :: 0 <= a < b < |ids| ==> ids[a] != ids[b]
    requires AllMatch(before, now, ws, Members(ids[..i]), SweptAll(cfg, before, last, at))
    ensures ids[i] in now && ids[i] in before
    ensures var w := WriteFailed(ids[i], Classify(cfg.rules, SweepEvidence(now[ids[i]], last)), None, None, None,
                                 at(ids[i]));
            AllMatch(before, now - {ids[i]}, ws + [w], Members(ids[..i + 1]), SweptAll(cfg, before, last, at))
  {
    var id := ids[i];
    assert id in Members(ids);
    StillKept(before, now, ws, ids, i, SweptAll(cfg, before, last, at));
    assert now[id] == before[id];
    var w := WriteFailed(id, Classify(cfg.rules, SweepEvidence(now[id], last)), None, None, None, at(id));
    SweepOne(cfg, before, now, ws, w, Members(ids[..i]), id, last, at);
    assert ids[..i + 1] == ids[..i] + [id];
    assert Members(ids[..i + 1]) == Members(ids[..i]) + {id};
  }
}
