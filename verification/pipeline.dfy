/** crates/orchestrator: normal submissions, the sweeper and any number of retry loops, all running at
    once over one tracker, and what that means for the tips that are sent. */
module Pipeline {
  import opened Wrappers
  import opened Numbers
  import opened StreamEvents
  import opened Failure
  import opened LifecycleRows
  import opened LifecycleModel
  import opened LifecycleTraces
  import opened LifecycleColumns
  import opened LifecycleSweep
  import opened LifecycleClock
  import opened Agent
  import opened Retry

  datatype Settings = Settings(tracker: Config, maxAttempts: u32, maxTip: u64, percentile: TipPercentile) {
    function Loops(): LoopConfig {
      LoopConfig(maxAttempts, maxTip, tracker.rules)
    }
  }

  /** The tracker, the retry loops under way, the timed-out bundles not yet handled, and every tip
      passed to the submitter so far. */
  datatype App = App(model: Model, loops: map<nat, Loop>, timedOut: set<int>, sent: seq<u64>)

  /** `SubmitOne` goes with the slot and the moment of the submission, and with what its rejection
      would need: a marker in place of a signature, the time, and a name for the loop. */
  datatype AppOp =
    | Background(op: Op)
    | SubmitOne(snapshot: Option<TipSnapshot>, stale: bool, reply: Reply, marker: string, slot: u64, at: int,
                now: int, loop: nat)
    | CheckTimeouts(failedAt: int -> int)
    | HandleTimedOut(id: int, slotClock: u64, loop: nat)
    | RetryRound(loop: nat, round: Round)

  /** A loop is left as soon as its guard fails. */
  function Enter(s: Settings, loops: map<nat, Loop>, key: nat, loop: Loop): map<nat, Loop> {
    if loop.attempt < s.maxAttempts then loops[key := loop] else loops - {key}
  }

  ghost function SubmitNormally(s: Settings, app: App, op: AppOp): App
    requires op.SubmitOne?
  {
    var policy := NormalTipPolicy(op.snapshot, op.stale, s.percentile, s.maxTip);
    var sent := app.sent + [policy.tip];
    match op.reply
    case Accepted(signature, slot, at) =>
      app.(model := Step(s.tracker, app.model, Submit(Submission(signature, slot, policy.tip, at), policy.p50,
                                                      policy.p75)),
           sent := sent)
    case Rejected(raw) =>
      var row := Submit(Submission(op.marker, op.slot, policy.tip, op.at), policy.p50, policy.p75);
      var evidence := SubmitRejection(raw);
      App(Step(s.tracker, Step(s.tracker, app.model, row), Reject(app.model.nextId, raw, op.now)),
          Enter(s, app.loops, op.loop, Loop(1, policy.tip, Classify(s.tracker.rules, evidence), evidence)),
          app.timedOut, sent)
  }

  /** A timed-out bundle is retried at the tip in its row. */
  function Handle(s: Settings, app: App, id: int, slotClock: u64, key: nat): App
    requires id in app.model.table
  {
    var evidence := RowEvidence(app.model.table[id], slotClock);
    var loop := Loop(1, AsU64(app.model.table[id].tipLamports), Classify(s.tracker.rules, evidence), evidence);
    app.(loops := Enter(s, app.loops, key, loop), timedOut := app.timedOut - {id})
  }

  ghost function TakeRound(s: Settings, app: App, key: nat, round: Round): App
    requires key in app.loops
  {
    var (tip, next) := OneRound(s.Loops(), app.loops[key], round);
    var sent := app.sent + AsSeq(tip);
    match next
    case GoesOn(loop) => app.(loops := Enter(s, app.loops, key, loop), sent := sent)
    case Ends(ending) => app.(model := Recorded(s.tracker, app.model, ending), loops := app.loops - {key}, sent := sent)
  }

  /** An operation that is not due leaves everything as it is. A crash loses all but the table. */
  ghost function AppStep(s: Settings, app: App, op: AppOp): App {
    match op
    case Background(op) =>
      if op.Submit? || op.Sweep? then app
      else if op.Crash? then App(Step(s.tracker, app.model, op), map[], {}, app.sent)
      else app.(model := Step(s.tracker, app.model, op))
    case SubmitOne(_, _, _, _, _, _, _, key) => if key in app.loops then app else SubmitNormally(s, app, op)
    case CheckTimeouts(at) =>
      var m := app.model;
      app.(model := Step(s.tracker, m, Sweep(at)),
           timedOut := app.timedOut + set id | id in m.pending
               && TimedOut(s.tracker.timeoutSlots, m.clock, m.pending[id]))
    case HandleTimedOut(id, slotClock, key) =>
      if id in app.timedOut && id in app.model.table && key !in app.loops then Handle(s, app, id, slotClock, key)
      else app
    case RetryRound(key, round) => if key in app.loops then TakeRound(s, app, key, round) else app
  }

  ghost function AppRun(s: Settings, app: App, ops: seq<AppOp>): App
    decreases |ops|
  {
    if ops == [] then app else AppRun(s, AppStep(s, app, ops[0]), ops[1..])
  }

  /** A new process over the table of earlier ones. */
  ghost function Boot(table: Table, nextId: int): App {
    App(Model(HydratedPending(table), HydratedClock(table), table, nextId), map[], {}, [])
  }

  /** The rounds still to come for a loop, one after the other. */
  function RoundsFrom(s: Settings, key: nat, attempt: nat, rounds: nat -> Round): seq<AppOp>
    decreases s.maxAttempts - attempt
  {
    if attempt >= s.maxAttempts then []
    else [RetryRound(key, rounds(attempt))] + RoundsFrom(s, key, attempt + 1, rounds)
  }

  lemma {:induction false} NoLoopNoRounds(s: Settings, app: App, key: nat, attempt: nat, rounds: nat -> Round)
    requires key !in app.loops
    ensures AppRun(s, app, RoundsFrom(s, key, attempt, rounds)) == app
    decreases s.maxAttempts - attempt
  {
    if attempt < s.maxAttempts {
      NoLoopNoRounds(s, app, key, attempt + 1, rounds);
      assert RoundsFrom(s, key, attempt, rounds)[1..] == RoundsFrom(s, key, attempt + 1, rounds);
    }
  }

  /** What is left when the loop under `key` has come to its end. */
  ghost function Finish(s: Settings, app: App, key: nat, r: Retried): App {
    App(Recorded(s.tracker, app.model, r.ending), app.loops - {key}, app.timedOut, app.sent + r.tips)
  }

  lemma FinishAfter(s: Settings, app: App, key: nat, loop: Loop, tip: Option<u64>, rest: Retried)
    ensures Finish(s, app.(loops := app.loops[key := loop], sent := app.sent + AsSeq(tip)), key, rest) ==
            Finish(s, app, key, Retried(AsSeq(tip) + rest.tips, rest.ending, rest.last))
  {
  }

  /** What is left after one round is what was left before it, less that round. */
  lemma FinishAfterRound(s: Settings, app: App, key: nat, rounds: nat -> Round)
    requires key in app.loops && app.loops[key].attempt < s.maxAttempts
    ensures var loop, app' := app.loops[key], TakeRound(s, app, key, rounds(app.loops[key].attempt));
            Finish(s, app, key, Retrying(s.Loops(), loop, rounds)) ==
            if key in app'.loops then Finish(s, app', key, Retrying(s.Loops(), app'.loops[key], rounds)) else app'
    ensures var app' := TakeRound(s, app, key, rounds(app.loops[key].attempt));
            key in app'.loops ==> app.loops[key].attempt + 1 == app'.loops[key].attempt < s.maxAttempts
  {
    var loop := app.loops[key];
    Unrolled(s.Loops(), loop, rounds);
    var (tip, next) := OneRound(s.Loops(), loop, rounds(loop.attempt));
    if next.GoesOn? {
      FinishAfter(s, app, key, next.loop, tip, Retrying(s.Loops(), next.loop, rounds));
    }
  }

  lemma FirstRound(s: Settings, app: App, key: nat, attempt: nat, rounds: nat -> Round) returns (app': App)
    requires key in app.loops && app.loops[key].attempt == attempt < s.maxAttempts
    ensures AppRun(s, app, RoundsFrom(s, key, attempt, rounds)) ==
            AppRun(s, app', RoundsFrom(s, key, attempt + 1, rounds))
    ensures key in app'.loops ==> app'.loops[key].attempt == attempt + 1 < s.maxAttempts
    ensures PlayedOut(s, app, key, rounds) == PlayedOut(s, app', key, rounds)
  {
    app' := TakeRound(s, app, key, rounds(attempt));
    AppRunCons(s, app, RetryRound(key, rounds(attempt)), RoundsFrom(s, key, attempt + 1, rounds));
    FinishAfterRound(s, app, key, rounds);
  }

  /** The rounds of one loop with nothing in between are the sequential loop: the same tips in the same
      order, and the same bundle tracked at the end. */
  lemma LoopIsItsRounds(s: Settings, app: App, key: nat, rounds: nat -> Round)
    requires key in app.loops && app.loops[key].attempt < s.maxAttempts
    ensures AppRun(s, app, RoundsFrom(s, key, app.loops[key].attempt, rounds)) ==
            Finish(s, app, key, Retrying(s.Loops(), app.loops[key], rounds))
  {
    RoundsPlayOut(s, app, key, app.loops[key].attempt, rounds);
  }

  /** What becomes of the loop under `key` if it is left to its rounds. */
  ghost function PlayedOut(s: Settings, app: App, key: nat, rounds: nat -> Round): App {
    if key in app.loops then Finish(s, app, key, Retrying(s.Loops(), app.loops[key], rounds)) else app
  }

  lemma {:induction false} RoundsPlayOut(s: Settings, app: App, key: nat, attempt: nat, rounds: nat -> Round)
    requires key in app.loops ==> app.loops[key].attempt == attempt < s.maxAttempts
    ensures AppRun(s, app, RoundsFrom(s, key, attempt, rounds)) == PlayedOut(s, app, key, rounds)
    decreases s.maxAttempts - attempt
  {
    if key in app.loops {
      var app' := FirstRound(s, app, key, attempt, rounds);
      RoundsPlayOut(s, app', key, attempt + 1, rounds);
    } else {
      NoLoopNoRounds(s, app, key, attempt, rounds);
    }
  }

  // ---------------------------------------------------------------------------
  // Submissions
  // ---------------------------------------------------------------------------

  /** A normal submission sends one tip and leaves one row with that tip and the percentiles of the feed. An
      accepted bundle is tracked under its signature; a rejected one is failed at once with the verdict on its
      rejection, from which its retry loop sets out. */
  lemma SubmissionIsRecorded(s: Settings, app: App, op: AppOp)
    requires Inv(app.model) && op.SubmitOne? && op.loop !in app.loops
    ensures var app', id := AppStep(s, app, op), app.model.nextId;
            var policy := NormalTipPolicy(op.snapshot, op.stale, s.percentile, s.maxTip);
            && app'.sent == app.sent + [policy.tip] && id in app'.model.table && id !in app.model.table
            && var row := app'.model.table[id];
               && AsU64(row.tipLamports) == policy.tip
               && SlotValue(row.tipP50) == policy.p50 && SlotValue(row.tipP75) == policy.p75
               && (op.reply.Accepted? ==>
                     && row.status.Submitted? && row.memoSignature == op.reply.signature
                     && AsU64(row.submittedSlot) == op.reply.slot && row.submittedAt == op.reply.at
                     && app'.loops == app.loops)
               && (op.reply.Rejected? ==>
                     var verdict := s.tracker.rules.rejection(op.reply.rawError);
                     && row.status.Failed? && row.failure == Some(verdict)
                     && app'.loops ==
                        if s.maxAttempts > 1 then
                          app.loops[op.loop := Loop(1, policy.tip, verdict, SubmitRejection(op.reply.rawError))]
                        else app.loops)
  {
    var policy := NormalTipPolicy(op.snapshot, op.stale, s.percentile, s.maxTip);
    match op.reply
    case Accepted(signature, slot, at) =>
      NewRowRemembers(Submission(signature, slot, policy.tip, at), policy.p50, policy.p75,
                      NewRow(Submission(signature, slot, policy.tip, at), policy.p50, policy.p75));
    case Rejected(raw) =>
      var submission := Submission(op.marker, op.slot, policy.tip, op.at);
      var m := Step(s.tracker, app.model, Submit(submission, policy.p50, policy.p75));
      StepKeepsInv(s.tracker, app.model, Submit(submission, policy.p50, policy.p75));
      RowsSpeakForThemselves(s.tracker, m, Reject(app.model.nextId, raw, op.now), app.model.nextId);
      NewRowRemembers(submission, policy.p50, policy.p75,
                      Step(s.tracker, m, Reject(app.model.nextId, raw, op.now)).table[app.model.nextId]);
  }

  /** A timed-out bundle leaves the queue for a loop of its own, which sets out from the tip in the row and the
      verdict that the row gives. */
  lemma TimedOutIsRetried(s: Settings, app: App, id: int, slotClock: u64, key: nat)
    requires id in app.timedOut && id in app.model.table && RowOk(app.model.table[id])
    requires key !in app.loops && s.maxAttempts > 1
    ensures var app', row := AppStep(s, app, HandleTimedOut(id, slotClock, key)), app.model.table[id];
            && app'.timedOut == app.timedOut - {id} && app'.model == app.model && app'.sent == app.sent
            && app'.loops.Keys == app.loops.Keys + {key}
            && (forall k :: k in app.loops ==> app'.loops[k] == app.loops[k])
            && app'.loops[key].attempt == 1 && app'.loops[key].tip == AsU64(row.tipLamports)
            && app'.loops[key].Valid(s.tracker.rules)
            && NeverLandedVerdict(AsU64(row.submittedSlot), AsU64(row.submittedSlot), AsU64(row.tipLamports),
                                  SlotValue(row.tipP50), row.jitoInflightStatus, app'.loops[key].classification)
  {
    var row := app.model.table[id];
    NeverLandedVerdicts(s.tracker.rules, AsU64(row.submittedSlot), AsU64(row.blockhashFetchedAtSlot),
                        Max(slotClock, AsU64(row.blockhashFetchedAtSlot)), AsU64(row.tipLamports),
                        SlotValue(row.tipP50), SlotValue(row.tipP75), row.jitoInflightStatus);
  }

  /** A loop is moved by its own rounds alone; only a crash takes it away before they end it, and it takes them
      all, with the queue. */
  lemma LoopsKeepToThemselves(s: Settings, app: App, op: AppOp)
    ensures var app' := AppStep(s, app, op);
            if op == Background(Crash) then app'.loops == map[] && app'.timedOut == {} && app'.sent == app.sent
            else forall key :: key in app.loops && !(op.RetryRound? && op.loop == key) ==>
                   key in app'.loops && app'.loops[key] == app.loops[key]
  {
  }

  /** Every row but those of earlier processes has a tip that was sent, and every bundle in the queue of
      timed-out ones has failed. */
  ghost predicate Booked(app: App, earlier: set<int>) {
    && Inv(app.model)
    && (forall id :: id in app.model.table && id !in earlier ==> AsU64(app.model.table[id].tipLamports) in app.sent)
    && (forall id :: id in app.timedOut ==> id in app.model.table && app.model.table[id].status.Failed?)
  }

  lemma TrackerStepBooked(s: Settings, app: App, op: Op, earlier: set<int>)
    requires Booked(app, earlier) && !op.Submit?
    ensures Booked(app.(model := Step(s.tracker, app.model, op)), earlier)
  {
    StepKeepsRows(s.tracker, app.model, op);
    forall id | id in app.timedOut ensures Step(s.tracker, app.model, op).table[id].status.Failed? {
      StepIsLawful(s.tracker, app.model, op, id);
    }
  }

  lemma SubmitBooked(s: Settings, app: App, op: Op, earlier: set<int>)
    requires Booked(app, earlier) && op.Submit? && op.submission.tipLamports in app.sent
    ensures Booked(app.(model := Step(s.tracker, app.model, op)), earlier)
  {
    StepKeepsInv(s.tracker, app.model, op);
    RoundTrip(op.submission.tipLamports);
  }

  lemma SentBooked(app: App, tips: seq<u64>, earlier: set<int>)
    requires Booked(app, earlier)
    ensures Booked(app.(sent := app.sent + tips), earlier)
  {
  }

  lemma SubmitNormallyBooked(s: Settings, app: App, op: AppOp, earlier: set<int>)
    requires Booked(app, earlier) && op.SubmitOne?
    ensures Booked(SubmitNormally(s, app, op), earlier)
  {
    var policy := NormalTipPolicy(op.snapshot, op.stale, s.percentile, s.maxTip);
    SentBooked(app, [policy.tip], earlier);
    var app := app.(sent := app.sent + [policy.tip]);
    match op.reply
    case Accepted(signature, slot, at) =>
      SubmitBooked(s, app, Submit(Submission(signature, slot, policy.tip, at), policy.p50, policy.p75), earlier);
    case Rejected(raw) =>
      var row := Submit(Submission(op.marker, op.slot, policy.tip, op.at), policy.p50, policy.p75);
      SubmitBooked(s, app, row, earlier);
      TrackerStepBooked(s, app.(model := Step(s.tracker, app.model, row)), Reject(app.model.nextId, raw, op.now),
                        earlier);
  }

  lemma CheckTimeoutsBooked(s: Settings, app: App, at: int -> int, earlier: set<int>)
    requires Booked(app, earlier)
    ensures Booked(AppStep(s, app, CheckTimeouts(at)), earlier)
  {
    var m := app.model;
    TrackerStepBooked(s, app, Sweep(at), earlier);
    forall id | id in m.pending && TimedOut(s.tracker.timeoutSlots, m.clock, m.pending[id])
      ensures var t := Step(s.tracker, m, Sweep(at)).table; id in t && t[id].status.Failed?
    {
      assert m.pending[id] == FromRow(m.table[id]);
      RowsSpeakForThemselves(s.tracker, m, Sweep(at), id);
    }
  }

  lemma TakeRoundBooked(s: Settings, app: App, key: nat, round: Round, earlier: set<int>)
    requires Booked(app, earlier) && key in app.loops
    ensures Booked(TakeRound(s, app, key, round), earlier)
  {
    var (tip, next) := OneRound(s.Loops(), app.loops[key], round);
    SentBooked(app, AsSeq(tip), earlier);
    if next.Ends? && next.ending.Tracked? {
      var ending := next.ending;
      assert tip.value in app.sent + AsSeq(tip);
      SubmitBooked(s, app.(sent := app.sent + AsSeq(tip)), Submit(ending.record, ending.p50, ending.p75), earlier);
    }
  }

  lemma AppStepBooked(s: Settings, app: App, op: AppOp, earlier: set<int>)
    requires Booked(app, earlier)
    ensures Booked(AppStep(s, app, op), earlier)
  {
    match op
    case Background(op) => if !op.Submit? { TrackerStepBooked(s, app, op, earlier); }
    case SubmitOne(_, _, _, _, _, _, _, _) => SubmitNormallyBooked(s, app, op, earlier);
    case CheckTimeouts(at) => CheckTimeoutsBooked(s, app, at, earlier);
    case HandleTimedOut(_, _, _) =>
    case RetryRound(key, round) => if key in app.loops { TakeRoundBooked(s, app, key, round, earlier); }
  }

  /** However everything interleaves, no bundle is tracked that was not sent with the tip in its row, and none
      is retried that has not failed. */
  lemma {:induction false} RunBooked(s: Settings, app: App, ops: seq<AppOp>, earlier: set<int>)
    requires Booked(app, earlier)
    ensures Booked(AppRun(s, app, ops), earlier)
    decreases |ops|
  {
    if ops != [] {
      AppStepBooked(s, app, ops[0], earlier);
      RunBooked(s, AppStep(s, app, ops[0]), ops[1..], earlier);
    }
  }

  // ---------------------------------------------------------------------------
  // The cap
  // ---------------------------------------------------------------------------

  /** A row over the cap that some sweep could still time out, when timed-out bundles are retried at
      all; only rows of an earlier, more generous configuration are like that. */
  predicate Loose(s: Settings, row: Row) {
    && s.maxAttempts > 1 && row.status.Submitted? && AsU64(row.tipLamports) > s.maxTip
    && SaturatingSub(U64_MAX, AsU64(row.blockhashFetchedAtSlot)) > s.tracker.timeoutSlots
  }

  predicate LoopOk(s: Settings, loop: Loop) {
    1 <= loop.attempt < s.maxAttempts && loop.tip <= s.maxTip && loop.Valid(s.tracker.rules)
  }

  ghost predicate Capped(s: Settings, app: App) {
    && Inv(app.model)
    && (forall id :: id in app.model.table ==> !Loose(s, app.model.table[id]))
    && (forall id :: id in app.timedOut && id in app.model.table ==>
          s.maxAttempts <= 1 || AsU64(app.model.table[id].tipLamports) <= s.maxTip)
    && (forall id :: id in app.timedOut ==> id < app.model.nextId)
    && (forall key :: key in app.loops ==> LoopOk(s, app.loops[key]))
    && (forall i :: 0 <= i < |app.sent| ==> app.sent[i] <= s.maxTip)
  }

  lemma PersistNeverReopens(row: Row, ws: seq<Write>)
    ensures PersistAll(row, ws).status.Submitted? ==> row.status.Submitted?
  {
  }

  /** No operation of the tracker but a submission adds a row, changes a tip or a slot stamped at
      submission, or takes a row back to Submitted. */
  lemma StepKeepsRows(cfg: Config, m: Model, op: Op)
    requires Inv(m) && !op.Submit?
    ensures var m' := Step(cfg, m, op);
            && Inv(m') && m'.nextId == m.nextId && m'.table.Keys == m.table.Keys
            && forall id :: id in m.table ==>
                 && SameStamp(m.table[id], m'.table[id])
                 && (m'.table[id].status.Submitted? ==> m.table[id].status.Submitted?)
  {
    StepKeepsInv(cfg, m, op);
    var m' := Step(cfg, m, op);
    if !op.Crash? {
      StepAt(cfg, m, op);
      forall id | id in m.table
        ensures SameStamp(m.table[id], m'.table[id])
        ensures m'.table[id].status.Submitted? ==> m.table[id].status.Submitted?
      {
        StepKeepsStamp(cfg, m, op, id);
        PersistNeverReopens(JitoColumn(m.table[id], op, id), WritesFor(cfg, m, op, id));
      }
    }
  }

  lemma TrackerStepCapped(s: Settings, app: App, op: Op)
    requires Capped(s, app) && !op.Submit?
    ensures Capped(s, app.(model := Step(s.tracker, app.model, op)))
  {
    StepKeepsRows(s.tracker, app.model, op);
  }

  lemma SubmitCapped(s: Settings, app: App, op: Op)
    requires Capped(s, app) && op.Submit? && op.submission.tipLamports <= s.maxTip
    ensures Capped(s, app.(model := Step(s.tracker, app.model, op)))
  {
    StepKeepsInv(s.tracker, app.model, op);
  }

  lemma SentCapped(s: Settings, app: App, tip: u64)
    requires Capped(s, app) && tip <= s.maxTip
    ensures Capped(s, app.(sent := app.sent + [tip]))
  {
  }

  lemma EnterCapped(s: Settings, app: App, key: nat, loop: Loop)
    requires Capped(s, app) && loop.attempt >= 1 && (s.maxAttempts <= 1 || loop.tip <= s.maxTip)
        && loop.Valid(s.tracker.rules)
    ensures Capped(s, app.(loops := Enter(s, app.loops, key, loop)))
  {
  }

  lemma SubmitNormallyCapped(s: Settings, app: App, op: AppOp)
    requires Capped(s, app) && op.SubmitOne?
    ensures Capped(s, SubmitNormally(s, app, op))
  {
    var policy := NormalTipPolicy(op.snapshot, op.stale, s.percentile, s.maxTip);
    SentCapped(s, app, policy.tip);
    var app := app.(sent := app.sent + [policy.tip]);
    match op.reply
    case Accepted(signature, slot, at) =>
      SubmitCapped(s, app, Submit(Submission(signature, slot, policy.tip, at), policy.p50, policy.p75));
    case Rejected(raw) =>
      var row := Submit(Submission(op.marker, op.slot, policy.tip, op.at), policy.p50, policy.p75);
      var evidence := SubmitRejection(raw);
      SubmitCapped(s, app, row);
      var app1 := app.(model := Step(s.tracker, app.model, row));
      TrackerStepCapped(s, app1, Reject(app.model.nextId, raw, op.now));
      var app2 := app1.(model := Step(s.tracker, app1.model, Reject(app.model.nextId, raw, op.now)));
      EnterCapped(s, app2, op.loop, Loop(1, policy.tip, Classify(s.tracker.rules, evidence), evidence));
  }

  lemma CheckTimeoutsCapped(s: Settings, app: App, at: int -> int)
    requires Capped(s, app)
    ensures Capped(s, AppStep(s, app, CheckTimeouts(at)))
  {
    StepKeepsRows(s.tracker, app.model, Sweep(at));
    var m := app.model;
    forall id | id in m.pending && TimedOut(s.tracker.timeoutSlots, m.clock, m.pending[id])
      ensures id in m.table && (s.maxAttempts <= 1 || AsU64(m.table[id].tipLamports) <= s.maxTip)
    {
      assert m.pending[id] == FromRow(m.table[id]);
      assert !Loose(s, m.table[id]);
    }
  }

  lemma TakeRoundCapped(s: Settings, app: App, key: nat, round: Round)
    requires Capped(s, app) && key in app.loops
    ensures Capped(s, TakeRound(s, app, key, round))
  {
    var loop := app.loops[key];
    RoundTipCapped(s.Loops(), loop, round);
    var (tip, next) := OneRound(s.Loops(), loop, round);
    var app1 := app.(sent := app.sent + AsSeq(tip));
    match next
    case GoesOn(l) => EnterCapped(s, app1, key, l);
    case Ends(ending) =>
      var app2 := app1.(loops := app.loops - {key});
      if ending.Tracked? {
        SubmitCapped(s, app2, Submit(ending.record, ending.p50, ending.p75));
      }
  }

  lemma AppStepCapped(s: Settings, app: App, op: AppOp)
    requires Capped(s, app)
    ensures Capped(s, AppStep(s, app, op))
  {
    match op
    case Background(op) => if !op.Submit? { TrackerStepCapped(s, app, op); }
    case SubmitOne(_, _, _, _, _, _, _, _) => SubmitNormallyCapped(s, app, op);
    case CheckTimeouts(at) => CheckTimeoutsCapped(s, app, at);
    case HandleTimedOut(id, slotClock, key) =>
      if id in app.timedOut && id in app.model.table {
        var evidence := RowEvidence(app.model.table[id], slotClock);
        var loop := Loop(1, AsU64(app.model.table[id].tipLamports), Classify(s.tracker.rules, evidence), evidence);
        EnterCapped(s, app.(timedOut := app.timedOut - {id}), key, loop);
      }
    case RetryRound(key, round) => if key in app.loops { TakeRoundCapped(s, app, key, round); }
  }

  /** However normal submissions, sweeps, retry loops and crashes interleave, and whatever the model
      decides, the cap is kept, and every loop under way has attempts left and goes by the verdict on
      its own evidence. */
  lemma {:induction false} RunCapped(s: Settings, app: App, ops: seq<AppOp>)
    requires Capped(s, app)
    ensures Capped(s, AppRun(s, app, ops))
    decreases |ops|
  {
    if ops != [] {
      AppStepCapped(s, app, ops[0]);
      RunCapped(s, AppStep(s, app, ops[0]), ops[1..]);
    }
  }

  ghost predicate Overshoots(s: Settings, app: App, ops: seq<AppOp>) {
    exists i :: 0 <= i < |AppRun(s, app, ops).sent| && AppRun(s, app, ops).sent[i] > s.maxTip
  }

  /** The run that sends a tip over the cap: the slot clock jumps, the sweep fails the row, and the model
      just resubmits. */
  function Overshooting(id: int): seq<AppOp> {
    [Background(Event(Slot(U64_MAX, SlotProcessed, 0))), CheckTimeouts(_ => 0), HandleTimedOut(id, 0, 0),
     RetryRound(0, Round(Some([Resubmit]), None, None, Rejected("")))]
  }

  lemma JumpKeepsRow(s: Settings, m: Model, id: int)
    requires Inv(m) && id in m.table && m.table[id].status.Submitted?
    ensures var m' := Step(s.tracker, m, Event(Slot(U64_MAX, SlotProcessed, 0)));
            Inv(m') && m'.clock == U64_MAX && id in m'.table && m'.table[id] == m.table[id]
  {
    var jump := Event(Slot(U64_MAX, SlotProcessed, 0));
    StepKeepsInv(s.tracker, m, jump);
    StepAt(s.tracker, m, jump);
    assert Step(s.tracker, m, jump).table[id] == RowStep(s.tracker, m, jump, id);
    assert WritesFor(s.tracker, m, jump, id) == [];
  }

  lemma LooseTimesOut(s: Settings, row: Row)
    requires Loose(s, row)
    ensures row.status.Open() && TimedOut(s.tracker.timeoutSlots, U64_MAX, FromRow(row))
  {
  }

  lemma SweepQueuesRow(s: Settings, app: App, id: int)
    requires Inv(app.model) && app.model.clock == U64_MAX && id in app.model.table && Loose(s, app.model.table[id])
    ensures var app' := AppStep(s, app, CheckTimeouts(_ => 0));
            && id in app'.timedOut && id in app'.model.table && app'.loops == app.loops && app'.sent == app.sent
            && app'.model.table[id].tipLamports == app.model.table[id].tipLamports
  {
    StepKeepsRows(s.tracker, app.model, Sweep(_ => 0));
    LooseTimesOut(s, app.model.table[id]);
    assert app.model.pending[id] == FromRow(app.model.table[id]);
  }

  lemma QueuedRowIsSent(s: Settings, app: App, id: int, round: Round)
    requires s.maxAttempts > 1 && id in app.timedOut && id in app.model.table && app.loops == map[]
    requires round.llm == Some([Resubmit])
    ensures AppStep(s, AppStep(s, app, HandleTimedOut(id, 0, 0)), RetryRound(0, round)).sent ==
            app.sent + [AsU64(app.model.table[id].tipLamports)]
  {
  }

  lemma LooseRowOvershoots(s: Settings, table: Table, nextId: int, id: int)
    requires Inv(Boot(table, nextId).model) && id in table && Loose(s, table[id])
    ensures Overshoots(s, Boot(table, nextId), Overshooting(id))
  {
    var ops, app := Overshooting(id), Boot(table, nextId);
    JumpKeepsRow(s, app.model, id);
    var app1 := AppStep(s, app, ops[0]);
    SweepQueuesRow(s, app1, id);
    var app2 := AppStep(s, app1, CheckTimeouts(_ => 0));
    QueuedRowIsSent(s, app2, id, ops[3].round);
    FourSteps(s, app, ops[0], CheckTimeouts(_ => 0), ops[2], ops[3]);
    assert AppRun(s, app, ops).sent[0] > s.maxTip;
  }

  lemma AppRunCons(s: Settings, app: App, op: AppOp, rest: seq<AppOp>)
    ensures AppRun(s, app, [op] + rest) == AppRun(s, AppStep(s, app, op), rest)
  {
    assert ([op] + rest)[1..] == rest;
  }

  lemma FourSteps(s: Settings, app: App, a: AppOp, b: AppOp, c: AppOp, d: AppOp)
    ensures AppRun(s, app, [a, b, c, d]) == AppStep(s, AppStep(s, AppStep(s, AppStep(s, app, a), b), c), d)
  {
    var app1 := AppStep(s, app, a);
    var app2 := AppStep(s, app1, b);
    AppRunCons(s, app, a, [b, c, d]);
    AppRunCons(s, app1, b, [c, d]);
    AppRunCons(s, app2, c, [d]);
    AppRunCons(s, AppStep(s, app2, c), d, []);
    assert [a, b, c, d] == [a] + [b, c, d] && [b, c, d] == [b] + [c, d] && [c, d] == [c] + [d] && [d] == [d] + [];
  }

  lemma NoOvershoot(s: Settings, app: App, ops: seq<AppOp>)
    requires Capped(s, app)
    ensures !Overshoots(s, app, ops)
  {
    RunCapped(s, app, ops);
  }

  /** Started on the table of earlier runs, some run sends a tip over the cap if and only if some row is
      over the cap and still able to time out: retries take up the tip in the row, and only a tip that
      the agent sets is clamped. */
  lemma OvershootsOnlyFromLooseRow(s: Settings, table: Table, nextId: int)
    requires Inv(Boot(table, nextId).model)
    ensures (exists ops: seq<AppOp> :: Overshoots(s, Boot(table, nextId), ops))
       <==> exists id :: id in table && Loose(s, table[id])
  {
    var app := Boot(table, nextId);
    if id :| id in table && Loose(s, table[id]) {
      LooseRowOvershoots(s, table, nextId, id);
    } else {
      forall ops: seq<AppOp> ensures !Overshoots(s, app, ops) {
        NoOvershoot(s, app, ops);
      }
    }
  }
}
