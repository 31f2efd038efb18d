/** crates/lifecycle: what the slot clock is, and with it what a sweep makes of a submission. */
module LifecycleClock {
  import opened Wrappers
  import opened Numbers
  import opened Failure
  import opened LifecycleRows
  import opened LifecycleModel
  import opened LifecycleRecovery
  import opened LifecycleColumns
  import opened LifecycleSweep

  predicate Reports(op: Op, n: u64) {
    op.Event? && op.event.Slot? && op.event.slot == n
  }

  ghost predicate Reported(ops: seq<Op>, n: u64) {
    exists i :: 0 <= i < |ops| && Reports(ops[i], n)
  }

  predicate UpTo(op: Op, n: u64) {
    op.Event? && op.event.Slot? ==> op.event.slot <= n
  }

  ghost predicate NoCrash(ops: seq<Op>) {
    forall i :: 0 <= i < |ops| ==> !ops[i].Crash?
  }

  /** The greatest slot of any update, of whatever status, or 0 when there is none. */
  ghost predicate IsGreatestSlot(ops: seq<Op>, n: u64) {
    (forall i :: 0 <= i < |ops| ==> UpTo(ops[i], n)) && (n == 0 || Reported(ops, n))
  }

  /** The clock never goes back while the process lives, and takes no slot but from an update. */
  lemma ClockNeverFalls(cfg: Config, m: Model, op: Op)
    requires !op.Crash?
    ensures var c := Step(cfg, m, op).clock;
            m.clock <= c && UpTo(op, c) && (c == m.clock || Reports(op, c))
  {
  }

  lemma {:induction false} ClockSince(cfg: Config, m: Model, ops: seq<Op>)
    requires NoCrash(ops)
    ensures var c := Run(cfg, m, ops).clock;
            && m.clock <= c
            && (forall i :: 0 <= i < |ops| ==> UpTo(ops[i], c))
            && (c == m.clock || Reported(ops, c))
    decreases |ops|
  {
    if ops != [] {
      var m' := Step(cfg, m, ops[0]);
      var c := Run(cfg, m, ops).clock;
      ClockNeverFalls(cfg, m, ops[0]);
      ClockSince(cfg, m', ops[1..]);
      forall i | 0 <= i < |ops| ensures UpTo(ops[i], c) {
        assert i > 0 ==> ops[i] == ops[1..][i - 1];
      }
      if c != m'.clock {
        var i :| 0 <= i < |ops[1..]| && Reports(ops[1..][i], c);
        assert Reports(ops[i + 1], c);
      } else if c != m.clock {
        assert Reports(ops[0], c);
      }
    }
  }

  /** With no crash the clock is the greatest slot seen, whatever the order the updates came in. */
  lemma ClockIsGreatestSlot(cfg: Config, ops: seq<Op>)
    requires NoCrash(ops)
    ensures IsGreatestSlot(ops, Run(cfg, EMPTY, ops).clock)
  {
    ClockSince(cfg, EMPTY, ops);
  }

  /** A slot that hydration reads from an open row: where the bundle landed, or where it was submitted. */
  predicate HoldsSlot(row: Row, n: u64) {
    row.status.Open() && (row.landedSlot == Some(AsI64(n)) || row.submittedSlot == AsI64(n))
  }

  /** `c` is the greatest slot in the open rows, or 0 when there is none. */
  ghost predicate IsGreatestHeld(t: Table, c: u64) {
    && (forall id, n: u64 :: id in t && HoldsSlot(t[id], n) ==> n <= c)
    && (c == 0 || exists id :: id in t && HoldsSlot(t[id], c))
  }

  lemma {:induction false} GreatestAmong(t: Table, ids: set<int>) returns (c: u64)
    requires forall id :: id in ids ==> id in t && t[id].status.Open()
    ensures forall id :: id in ids ==> RowSlot(t[id]) <= c
    ensures c == 0 || exists id :: id in ids && RowSlot(t[id]) == c
  {
    c := 0;
    if id :| id in ids {
      c := GreatestAmong(t, ids - {id});
      if c < RowSlot(t[id]) {
        c := RowSlot(t[id]);
      }
    }
  }

  lemma RoundTrip(n: u64)
    ensures AsU64(AsI64(n)) == n
  {
  }

  lemma HeldSlots(row: Row, n: u64)
    requires row.status.Open()
    ensures HoldsSlot(row, n) ==> n <= RowSlot(row)
    ensures HoldsSlot(row, RowSlot(row))
  {
    RoundTrip(n);
  }

  lemma RebuiltClock(t: Table)
    ensures IsGreatestHeld(t, HydratedClock(t))
  {
    var c := GreatestAmong(t, set id | id in t && t[id].status.Open());
    HydratedClockIsUnique(t, c);
    forall id, n: u64 | id in t && HoldsSlot(t[id], n) ensures n <= c {
      HeldSlots(t[id], n);
    }
    if c != 0 {
      var id :| id in t && t[id].status.Open() && RowSlot(t[id]) == c;
      HeldSlots(t[id], c);
    }
  }

  /** After a crash the clock is the greatest of the slots in the open rows and those seen since. */
  lemma ClockAfterCrash(cfg: Config, before: seq<Op>, after: seq<Op>)
    requires NoCrash(after)
    ensures var t, c := Run(cfg, EMPTY, before).table, Run(cfg, EMPTY, before + [Crash] + after).clock;
            && (forall id, n: u64 :: id in t && HoldsSlot(t[id], n) ==> n <= c)
            && (forall i :: 0 <= i < |after| ==> UpTo(after[i], c))
            && (c == 0 || Reported(after, c) || exists id :: id in t && HoldsSlot(t[id], c))
  {
    var m := Run(cfg, EMPTY, before);
    RunAppend(cfg, EMPTY, before + [Crash], after);
    RunSnoc(cfg, EMPTY, before, Crash);
    ClockSince(cfg, Step(cfg, m, Crash), after);
    RebuiltClock(m.table);
  }

  // ---------------------------------------------------------------------------
  // From a submission to its verdict
  // ---------------------------------------------------------------------------

  /** What a row keeps of its submission, whatever has happened to the bundle since. */
  predicate Remembers(row: Row, s: Submission, p50: Option<u64>, p75: Option<u64>) {
    && row.memoSignature == s.memoSignature && row.submittedAt == s.submittedAt
    && AsU64(row.submittedSlot) == s.blockhashFetchedAtSlot
    && AsU64(row.blockhashFetchedAtSlot) == s.blockhashFetchedAtSlot
    && AsU64(row.tipLamports) == s.tipLamports && SlotValue(row.tipP50) == p50 && SlotValue(row.tipP75) == p75
  }

  lemma NewRowRemembers(s: Submission, p50: Option<u64>, p75: Option<u64>, row: Row)
    requires SameStamp(NewRow(s, p50, p75), row)
    ensures Remembers(row, s, p50, p75)
  {
    RoundTrip(s.blockhashFetchedAtSlot);
    RoundTrip(s.tipLamports);
    if p50.Some? {
      RoundTrip(p50.value);
    }
    if p75.Some? {
      RoundTrip(p75.value);
    }
  }

  /** Each submission has a row of its own from then on, which remembers it and the last Jito status. */
  lemma SubmissionIsRemembered(cfg: Config, before: seq<Op>, s: Submission, p50: Option<u64>, p75: Option<u64>,
                               after: seq<Op>)
    ensures var m0, m := Run(cfg, EMPTY, before), Run(cfg, EMPTY, before + [Submit(s, p50, p75)] + after);
            && m0.nextId !in m0.table && m0.nextId in m.table
            && Remembers(m.table[m0.nextId], s, p50, p75)
            && m.table[m0.nextId].jitoInflightStatus == LastPoll(after, m0.nextId)
  {
    var m0 := Run(cfg, EMPTY, before);
    var m1 := Step(cfg, m0, Submit(s, p50, p75));
    RunKeepsInv(cfg, EMPTY, before);
    StepKeepsInv(cfg, m0, Submit(s, p50, p75));
    RunAppend(cfg, EMPTY, before + [Submit(s, p50, p75)], after);
    RunSnoc(cfg, EMPTY, before, Submit(s, p50, p75));
    RunKeepsStamp(cfg, m1, after, m0.nextId);
    NewRowRemembers(s, p50, p75, Run(cfg, m1, after).table[m0.nextId]);
  }

  /** The verdict of a sweep by the columns of the row. */
  lemma SweptRowVerdict(cfg: Config, m: Model, id: int, s: Submission, p50: Option<u64>, p75: Option<u64>,
                        at: int -> int)
    requires Inv(m) && id in m.table && Remembers(m.table[id], s, p50, p75)
    ensures var row, t := m.table[id], Step(cfg, m, Sweep(at)).table;
            && id in t
            && if row.status.Submitted? && m.clock > s.blockhashFetchedAtSlot + cfg.timeoutSlots then
                 && t[id] == row.(status := Failed, failure := t[id].failure, finalizedAt := Some(at(id)))
                 && t[id].failure.Some?
                 && NeverLandedVerdict(s.blockhashFetchedAtSlot, s.blockhashFetchedAtSlot, s.tipLamports, p50,
                                       row.jitoInflightStatus, t[id].failure.value)
               else t[id] == row
  {
    var row := m.table[id];
    RowsSpeakForThemselves(cfg, m, Sweep(at), id);
    NeverLandedVerdicts(cfg.rules, s.blockhashFetchedAtSlot, s.blockhashFetchedAtSlot, m.clock, s.tipLamports, p50, p75,
                        row.jitoInflightStatus);
  }

  /** A sweep, from the submission of a bundle and the slot updates seen: a bundle still Submitted fails if
      and only if the greatest slot is past the one it was submitted at by more than the limit. The verdict
      follows from the tip, the median at submission and the last Jito status. */
  lemma SweepsGoByTheGreatestSlot(cfg: Config, before: seq<Op>, s: Submission, p50: Option<u64>, p75: Option<u64>,
                                  after: seq<Op>, top: u64, at: int -> int)
    requires NoCrash(before + [Submit(s, p50, p75)] + after)
    requires IsGreatestSlot(before + [Submit(s, p50, p75)] + after, top)
    ensures var id, m := Run(cfg, EMPTY, before).nextId, Run(cfg, EMPTY, before + [Submit(s, p50, p75)] + after);
            var t := Step(cfg, m, Sweep(at)).table;
            && id in m.table && id in t
            && if m.table[id].status.Submitted? && top > s.blockhashFetchedAtSlot + cfg.timeoutSlots then
                 && t[id] == m.table[id].(status := Failed, failure := t[id].failure, finalizedAt := Some(at(id)))
                 && t[id].failure.Some?
                 && NeverLandedVerdict(s.blockhashFetchedAtSlot, s.blockhashFetchedAtSlot, s.tipLamports, p50,
                                       LastPoll(after, id), t[id].failure.value)
               else t[id] == m.table[id]
  {
    var ops := before + [Submit(s, p50, p75)] + after;
    RunKeepsInv(cfg, EMPTY, ops);
    ClockIsGreatestSlot(cfg, ops);
    GreatestIsUnique(ops, top, Run(cfg, EMPTY, ops).clock);
    SubmissionIsRemembered(cfg, before, s, p50, p75, after);
    SweptRowVerdict(cfg, Run(cfg, EMPTY, ops), Run(cfg, EMPTY, before).nextId, s, p50, p75, at);
  }

  lemma GreatestIsUnique(ops: seq<Op>, a: u64, b: u64)
    requires IsGreatestSlot(ops, a) && IsGreatestSlot(ops, b)
    ensures a == b
  {
  }
}
