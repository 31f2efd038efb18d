/** crates/lifecycle: writes handed to background tasks may land in any order. The columns other than
    the status do not notice; the status does. */
module LifecycleWrites {
  import opened Wrappers
  import opened Numbers
  import opened LifecycleRows
  import opened LifecycleModel

  ghost predicate OneWriteEach(ws: seq<Write>) {
    && (forall i :: 0 <= i < |ws| ==> !ws[i].WriteFailed?)
    && (forall i, j :: 0 <= i < j < |ws| ==> ws[i].Stage() != ws[j].Stage())
  }

  /** The write that put a row in this stage, if there was one. */
  function Find(ws: seq<Write>, stage: Stage): Option<Write> {
    if ws == [] then None
    else if ws[|ws| - 1].Stage() == stage then Some(ws[|ws| - 1])
    else Find(ws[..|ws| - 1], stage)
  }

  function Applied(row: Row, w: Option<Write>): Row {
    match w case None => row case Some(x) => PersistRow(row, x)
  }

  /** Everything but the status, from one write for each stage. */
  function Columns(row: Row, ws: seq<Write>): Row {
    Applied(Applied(Applied(row, Find(ws, Processed)), Find(ws, Confirmed)), Find(ws, Finalized)).(status := row.status)
  }

  lemma {:induction false} FindHasStage(ws: seq<Write>, stage: Stage)
    ensures Find(ws, stage).Some? ==> Find(ws, stage).value.Stage() == stage && Find(ws, stage).value in ws
  {
    if ws != [] {
      FindHasStage(ws[..|ws| - 1], stage);
    }
  }

  lemma {:induction false} FindMember(ws: seq<Write>, w: Write)
    requires OneWriteEach(ws) && w in ws
    ensures Find(ws, w.Stage()) == Some(w)
  {
    var n := |ws| - 1;
    if ws[n] != w {
      var i :| 0 <= i < |ws| && ws[i] == w;
      assert ws[..n][i] == w;
      FindMember(ws[..n], w);
    }
  }

  /** Writes of different stages set different columns. */
  lemma ColumnsSnoc(row: Row, front: seq<Write>, w: Write)
    requires !w.WriteFailed? && Find(front, w.Stage()).None?
    ensures Columns(row, front + [w]) == PersistRow(Columns(row, front), w).(status := row.status)
  {
    assert (front + [w])[..|front|] == front;
    FindHasStage(front, Processed);
    FindHasStage(front, Confirmed);
    FindHasStage(front, Finalized);
    match w
    case WriteProcessed(_, _, _, _, _) =>
    case WriteConfirmed(_, _, _, _) =>
    case WriteFinalized(_, _, _, _) =>
  }

  lemma {:induction false} PersistIsColumns(row: Row, ws: seq<Write>)
    requires OneWriteEach(ws)
    ensures PersistAll(row, ws).(status := row.status) == Columns(row, ws)
  {
    if ws != [] {
      var n := |ws| - 1;
      var front, w := ws[..n], ws[n];
      PersistIsColumns(row, front);
      FindHasStage(front, w.Stage());
      ColumnsSnoc(row, front, w);
      assert front + [w] == ws;
      StatusIsSeparate(PersistAll(row, front), row.status, w);
    }
  }

  lemma StatusIsSeparate(row: Row, s: Stage, w: Write)
    ensures PersistRow(row.(status := s), w).(status := s) == PersistRow(row, w).(status := s)
  {
  }

  lemma SameFind(ws: seq<Write>, ws': seq<Write>, stage: Stage)
    requires OneWriteEach(ws) && OneWriteEach(ws') && multiset(ws) == multiset(ws')
    ensures Find(ws, stage) == Find(ws', stage)
  {
    FindHasStage(ws, stage);
    FindHasStage(ws', stage);
    if Find(ws, stage).Some? {
      assert Find(ws, stage).value in multiset(ws');
      FindMember(ws', Find(ws, stage).value);
    } else if Find(ws', stage).Some? {
      assert Find(ws', stage).value in multiset(ws);
      FindMember(ws, Find(ws', stage).value);
    }
  }

  /** However the Processed, Confirmed and Finalized writes of one bundle are ordered, the row ends
      with the same columns, but for the status, which is that of the write that came last. */
  lemma OrderOnlyDecidesStatus(row: Row, ws: seq<Write>, ws': seq<Write>)
    requires OneWriteEach(ws) && OneWriteEach(ws') && multiset(ws) == multiset(ws')
    ensures PersistAll(row, ws).(status := row.status) == PersistAll(row, ws').(status := row.status)
    ensures ws' != [] ==> PersistAll(row, ws').status == ws'[|ws'| - 1].Stage()
  {
    PersistIsColumns(row, ws);
    PersistIsColumns(row, ws');
    SameFind(ws, ws', Processed);
    SameFind(ws, ws', Confirmed);
    SameFind(ws, ws', Finalized);
  }

  /** So order does matter to recovery: a bundle whose Processed write overtakes its Finalized one is
      tracked again after the next restart. */
  lemma LateProcessedReopens(row: Row, id: int, at: int, at': int, landed: i64)
    ensures var ws := [WriteFinalized(id, at', None, FromStream), WriteProcessed(id, at, landed, None, FromStream)];
            id in HydratedPending(map[id := PersistAll(row, ws)])
  {
  }
}
