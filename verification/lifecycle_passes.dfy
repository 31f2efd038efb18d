/** crates/lifecycle: reconcile passes as they run, each reading the open rows of its own table first and
    applying the answers some time later, with anything at all in between. */
module LifecyclePasses {
  import opened Wrappers
  import opened LifecycleRows
  import opened LifecycleModel
  import opened LifecycleRecovery
  import opened LifecycleTraces
  import opened LifecycleReconcile

  /** The stages that a pass read: an entry for each row that was open. */
  type Reading = map<int, Stage>

  function ReadOpen(table: Table): Reading {
    map id | id in table && table[id].status.Open() :: table[id].status
  }

  /** The tracker and the passes under way. */
  datatype World = World(model: Model, passes: map<nat, Reading>)

  const NEW_WORLD: World := World(EMPTY, map[])

  /** An operation of the tracker, the beginning of a pass, or the node's answer for one bundle. */
  datatype Act =
    | Do(op: Op)
    | BeginPass(pass: nat)
    | Answer(pass: nat, id: int, st: Status, now: int)

  /** A pass has asked for a bundle if its row was open when the pass began. */
  predicate Asked(w: World, pass: nat, id: int) {
    pass in w.passes && id in w.passes[pass]
  }

  /** An answer goes by the stage the pass read; there is none for a bundle it has not asked for. Passes die
      with the process. */
  ghost function Proceed(cfg: Config, w: World, a: Act): World {
    match a
    case Do(op) => World(Step(cfg, w.model, op), if op.Crash? then map[] else w.passes)
    case BeginPass(k) => w.(passes := w.passes[k := ReadOpen(w.model.table)])
    case Answer(k, id, st, now) =>
      if Asked(w, k, id) then w.(model := Step(cfg, w.model, ApplyStatus(id, w.passes[k][id], st, now))) else w
  }

  ghost function ProceedAll(cfg: Config, w: World, acts: seq<Act>): World
    decreases |acts|
  {
    if acts == [] then w else ProceedAll(cfg, Proceed(cfg, w, acts[0]), acts[1..])
  }

  /** The operation an act comes down to, if any. */
  function OpOf(w: World, a: Act): Option<Op> {
    match a
    case Do(op) => Some(op)
    case BeginPass(_) => None
    case Answer(k, id, st, now) => if Asked(w, k, id) then Some(ApplyStatus(id, w.passes[k][id], st, now)) else None
  }

  /** No pass has read a stage above the one its row has. */
  ghost predicate WorldOk(w: World) {
    && Inv(w.model)
    && forall k, id :: Asked(w, k, id) ==>
         id in w.model.table && w.passes[k][id].Open() && w.passes[k][id].Rank() <= w.model.table[id].status.Rank()
  }

  ghost predicate NoneLower(t: Table, t': Table) {
    forall id :: id in t ==> id in t' && t[id].status.Rank() <= t'[id].status.Rank()
  }

  lemma StepLowersNone(cfg: Config, m: Model, op: Op)
    requires Inv(m)
    ensures NoneLower(m.table, Step(cfg, m, op).table)
  {
    forall id | id in m.table
      ensures id in Step(cfg, m, op).table && m.table[id].status.Rank() <= Step(cfg, m, op).table[id].status.Rank()
    {
      StepIsLawful(cfg, m, op, id);
    }
  }

  lemma ReadingsStayBehind(w: World, m: Model)
    requires WorldOk(w) && Inv(m) && NoneLower(w.model.table, m.table)
    ensures WorldOk(w.(model := m))
  {
    assert forall k, id :: Asked(w.(model := m), k, id) ==> Asked(w, k, id);
  }

  lemma StepKeepsOk(cfg: Config, w: World, op: Op)
    requires WorldOk(w)
    ensures WorldOk(w.(model := Step(cfg, w.model, op)))
  {
    StepKeepsInv(cfg, w.model, op);
    StepLowersNone(cfg, w.model, op);
    ReadingsStayBehind(w, Step(cfg, w.model, op));
  }

  lemma ProceedKeepsOk(cfg: Config, w: World, a: Act)
    requires WorldOk(w)
    ensures WorldOk(Proceed(cfg, w, a))
  {
    match a
    case BeginPass(_) =>
    case Do(op) => StepKeepsOk(cfg, w, op);
    case Answer(k, id, st, now) =>
      if Asked(w, k, id) {
        StepKeepsOk(cfg, w, ApplyStatus(id, w.passes[k][id], st, now));
      }
  }

  lemma {:induction false} ProceedAllKeepsOk(cfg: Config, w: World, acts: seq<Act>)
    requires WorldOk(w)
    ensures WorldOk(ProceedAll(cfg, w, acts))
    decreases |acts|
  {
    if acts != [] {
      ProceedKeepsOk(cfg, w, acts[0]);
      ProceedAllKeepsOk(cfg, Proceed(cfg, w, acts[0]), acts[1..]);
    }
  }

  lemma {:induction false} ProceedAppend(cfg: Config, w: World, a: seq<Act>, b: seq<Act>)
    ensures ProceedAll(cfg, w, a + b) == ProceedAll(cfg, ProceedAll(cfg, w, a), b)
    decreases |a|
  {
    if a == [] {
      assert a + b == b;
    } else {
      assert (a + b)[1..] == a[1..] + b;
      ProceedAppend(cfg, Proceed(cfg, w, a[0]), a[1..], b);
    }
  }

  lemma ProceedOne(cfg: Config, w: World, a: Act)
    ensures ProceedAll(cfg, w, [a]) == Proceed(cfg, w, a)
  {
    assert [a][1..] == [];
    assert ProceedAll(cfg, Proceed(cfg, w, a), []) == Proceed(cfg, w, a);
  }

  lemma ProceedSnoc(cfg: Config, w: World, acts: seq<Act>, a: Act)
    ensures ProceedAll(cfg, w, acts + [a]) == Proceed(cfg, ProceedAll(cfg, w, acts), a)
  {
    ProceedAppend(cfg, w, acts, [a]);
    ProceedOne(cfg, ProceedAll(cfg, w, acts), a);
  }

  /** Operations on their own. */
  function DoAll(ops: seq<Op>): (acts: seq<Act>)
    ensures |acts| == |ops| && forall i :: 0 <= i < |ops| ==> acts[i] == Do(ops[i])
  {
    seq(|ops|, i requires 0 <= i < |ops| => Do(ops[i]))
  }

  lemma {:induction false} DoAllIsRun(cfg: Config, w: World, ops: seq<Op>)
    ensures ProceedAll(cfg, w, DoAll(ops)).model == Run(cfg, w.model, ops)
    decreases |ops|
  {
    if ops != [] {
      assert DoAll(ops)[1..] == DoAll(ops[1..]);
      DoAllIsRun(cfg, Proceed(cfg, w, Do(ops[0])), ops[1..]);
    }
  }

  // ---------------------------------------------------------------------------
  // An undisturbed pass
  // ---------------------------------------------------------------------------

  /** The answers of a pass, in the order of the ids asked for, missing ones left out. */
  function Answers(pass: nat, ids: seq<int>, statuses: seq<Option<Status>>, at: int -> int): seq<Act> {
    if ids == [] || statuses == [] then []
    else
      (match statuses[0] case None => [] case Some(st) => [Answer(pass, ids[0], st, at(ids[0]))])
      + Answers(pass, ids[1..], statuses[1..], at)
  }

  lemma {:induction false} AnswersAreOps(cfg: Config, w: World, table: Table, pass: nat, ids: seq<int>,
                                         statuses: seq<Option<Status>>, at: int -> int)
    requires pass in w.passes && w.passes[pass] == ReadOpen(table)
    requires forall i :: 0 <= i < |ids| ==> ids[i] in table && table[ids[i]].status.Open()
    ensures ProceedAll(cfg, w, Answers(pass, ids, statuses, at)).model ==
            Run(cfg, w.model, PassOps(table, ids, statuses, at))
    decreases |ids|
  {
    if ids != [] && statuses != [] {
      var id, rest := ids[0], Answers(pass, ids[1..], statuses[1..], at);
      var head := OneStatus(table, id, statuses[0], at);
      RunAppend(cfg, w.model, head, PassOps(table, ids[1..], statuses[1..], at));
      match statuses[0] {
        case None =>
          assert Answers(pass, ids, statuses, at) == rest;
          AnswersAreOps(cfg, w, table, pass, ids[1..], statuses[1..], at);
        case Some(st) =>
          var a := Answer(pass, id, st, at(id));
          assert Answers(pass, ids, statuses, at) == [a] + rest;
          ProceedAppend(cfg, w, [a], rest);
          ProceedOne(cfg, w, a);
          RunOne(cfg, w.model, head[0]);
          AnswersAreOps(cfg, Proceed(cfg, w, a), table, pass, ids[1..], statuses[1..], at);
      }
    }
  }

  /** A pass with nothing in between is the pass that the tracker makes in one go. */
  lemma PassIsItsAnswers(cfg: Config, w: World, pass: nat, ids: seq<int>, statuses: seq<Option<Status>>, at: int -> int)
    requires forall i :: 0 <= i < |ids| ==> ids[i] in w.model.table && w.model.table[ids[i]].status.Open()
    ensures ProceedAll(cfg, w, [BeginPass(pass)] + Answers(pass, ids, statuses, at)).model ==
            Run(cfg, w.model, PassOps(w.model.table, ids, statuses, at))
  {
    ProceedAppend(cfg, w, [BeginPass(pass)], Answers(pass, ids, statuses, at));
    ProceedOne(cfg, w, BeginPass(pass));
    AnswersAreOps(cfg, Proceed(cfg, w, BeginPass(pass)), w.model.table, pass, ids, statuses, at);
  }
}
