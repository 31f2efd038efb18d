/** crates/orchestrator: the agent retry loop. */
module Retry {
  import opened Wrappers
  import opened Numbers
  import opened Failure
  import opened LifecycleRows
  import opened LifecycleModel
  import opened LifecycleClock
  import opened LifecycleTracking
  import opened Agent

  datatype LoopConfig = LoopConfig(maxAttempts: u32, maxTip: u64, rules: Interpreter)

  /** What the Block Engine makes of a submission. */
  datatype Reply = Accepted(signature: string, slot: u64, at: int) | Rejected(rawError: string)

  /** What one round meets: the model's decision, or none when it fails; the tip feed; the reply. */
  datatype Round = Round(llm: Option<seq<Action>>, p50: Option<u64>, p75: Option<u64>, reply: Reply)

  /** The variables of the loop: `attempt` is the attempt that has just failed. */
  datatype Loop = Loop(attempt: nat, tip: u64, classification: Classification, evidence: Evidence) {
    predicate Valid(rules: Interpreter) {
      classification == Classify(rules, evidence)
    }
  }

  datatype Ending = CapReached | GaveUp | Tracked(record: Submission, p50: Option<u64>, p75: Option<u64>)

  /** A round either goes on with new variables or ends the loop; the tip is the one submitted, if any. */
  datatype Next = GoesOn(loop: Loop) | Ends(ending: Ending)

  function Decision(loop: Loop, round: Round): seq<Action> {
    match round.llm
    case Some(actions) => actions
    case None => DecideSync(loop.classification.kind, loop.tip, round.p75, loop.attempt + 1)
  }

  function RoundPlan(cfg: LoopConfig, loop: Loop, round: Round): ExecPlan {
    Plan(ClampActions(Decision(loop, round), cfg.maxTip).0)
  }

  function NextTip(loop: Loop, plan: ExecPlan): u64 {
    plan.setTip.GetOr(loop.tip)
  }

  /** The variables after a round whose submission was rejected. */
  function Refused(cfg: LoopConfig, loop: Loop, round: Round): Loop
    requires round.reply.Rejected?
  {
    var evidence := SubmitRejection(round.reply.rawError);
    Loop(loop.attempt + 1, NextTip(loop, RoundPlan(cfg, loop, round)), Classify(cfg.rules, evidence), evidence)
  }

  /** One turn of the loop: the tip submitted, if there is a submission, and how things go on. A decision
      without a terminal action resubmits. */
  function OneRound(cfg: LoopConfig, loop: Loop, round: Round): (Option<u64>, Next) {
    var plan := RoundPlan(cfg, loop, round);
    var tip := NextTip(loop, plan);
    if plan.terminal.WillAbandon? then (None, Ends(GaveUp))
    else
      match round.reply
      case Accepted(signature, slot, at) =>
        (Some(tip), Ends(Tracked(Submission(signature, slot, tip, at), round.p50, round.p75)))
      case Rejected(_) => (Some(tip), GoesOn(Refused(cfg, loop, round)))
  }

  datatype Retried = Retried(tips: seq<u64>, ending: Ending, last: Loop)

  /** The whole loop, where round `rounds(n)` follows failed attempt `n`. */
  function Retrying(cfg: LoopConfig, loop: Loop, rounds: nat -> Round): Retried
    decreases cfg.maxAttempts - loop.attempt
  {
    if loop.attempt >= cfg.maxAttempts then Retried([], CapReached, loop)
    else
      match OneRound(cfg, loop, rounds(loop.attempt))
      case (tip, Ends(ending)) => Retried(AsSeq(tip), ending, loop)
      case (tip, GoesOn(next)) =>
        var rest := Retrying(cfg, next, rounds);
        Retried(AsSeq(tip) + rest.tips, rest.ending, rest.last)
  }

  /** What the ending means for the tracker. */
  ghost function Recorded(cfg: Config, m: Model, ending: Ending): Model {
    match ending
    case Tracked(record, p50, p75) => Step(cfg, m, Submit(record, p50, p75))
    case _ => m
  }

  /** The whole loop, seen after some of its submissions. */
  predicate Continues(all: Retried, tips: seq<u64>, rest: Retried) {
    all.tips == tips + rest.tips && all.ending == rest.ending
  }

  lemma Unrolled(cfg: LoopConfig, loop: Loop, rounds: nat -> Round)
    requires loop.attempt < cfg.maxAttempts
    ensures var (tip, next) := OneRound(cfg, loop, rounds(loop.attempt));
            Retrying(cfg, loop, rounds) ==
            if next.Ends? then Retried(AsSeq(tip), next.ending, loop)
            else
              var rest := Retrying(cfg, next.loop, rounds);
              Retried(AsSeq(tip) + rest.tips, rest.ending, rest.last)
  {
  }

  lemma ContinuesOn(all: Retried, tips: seq<u64>, tip: seq<u64>, rest: Retried, r: Retried)
    requires Continues(all, tips, r) && r.tips == tip + rest.tips && r.ending == rest.ending
    ensures Continues(all, tips + tip, rest)
  {
    Regroup(tips, tip, rest.tips);
  }

  /** One more round, on the way from the start of the loop to its end. */
  lemma RoundContinues(cfg: LoopConfig, all: Retried, tips: seq<u64>, loop: Loop, rounds: nat -> Round)
    requires loop.attempt < cfg.maxAttempts && Continues(all, tips, Retrying(cfg, loop, rounds))
    ensures var (tip, next) := OneRound(cfg, loop, rounds(loop.attempt));
            if next.Ends? then all.tips == tips + AsSeq(tip) && all.ending == next.ending
            else Continues(all, tips + AsSeq(tip), Retrying(cfg, next.loop, rounds))
  {
    var (tip, next) := OneRound(cfg, loop, rounds(loop.attempt));
    Unrolled(cfg, loop, rounds);
    if next.GoesOn? {
      ContinuesOn(all, tips, AsSeq(tip), Retrying(cfg, next.loop, rounds), Retrying(cfg, loop, rounds));
    }
  }

  /** Decide, falling back to the baseline, then apply the guardrail and resolve the actions. */
  method PlanRound(cfg: LoopConfig, loop: Loop, round: Round) returns (plan: ExecPlan)
    ensures plan == RoundPlan(cfg, loop, round)
  {
    var actions;
    match round.llm {
      case Some(decided) => actions := decided;
      case None => actions := DecideSync(loop.classification.kind, loop.tip, round.p75, loop.attempt + 1);
    }
    plan := PlanActions(ClampActions(actions, cfg.maxTip).0);
  }

  ghost predicate NewSignatures(rounds: nat -> Round, bySig: map<string, int>) {
    forall n: nat :: rounds(n).reply.Accepted? ==> rounds(n).reply.signature !in bySig
  }

  /** One turn of the loop as written: the submission of an accepted bundle is recorded at once. */
  method ExecuteRound(cfg: LoopConfig, tracker: LifecycleTracker, loop: Loop, round: Round)
    returns (tip: Option<u64>, next: Next)
    requires tracker.Valid()
    requires round.reply.Accepted? ==> round.reply.signature !in tracker.inner.bySig
    modifies tracker, tracker.inner
    ensures (tip, next) == OneRound(cfg, loop, round)
    ensures tracker.Valid() && tracker.inner == old(tracker.inner)
    ensures next.GoesOn? ==> unchanged(tracker) && unchanged(tracker.inner)
    ensures next.Ends? ==> tracker.View() == Recorded(tracker.cfg, old(tracker.View()), next.ending)
  {
    var plan := PlanRound(cfg, loop, round);
    var spec := loop.tip;
    if plan.setTip.Some? {
      spec := plan.setTip.value;
    }
    if plan.terminal.WillAbandon? {
      return None, Ends(GaveUp);
    }
    match round.reply {
      case Accepted(signature, slot, at) =>
        var record := Submission(signature, slot, spec, at);
        var _ := tracker.RecordSubmission(record, round.p50, round.p75);
        return Some(spec), Ends(Tracked(record, round.p50, round.p75));
      case Rejected(raw) =>
        var evidence := SubmitRejection(raw);
        return Some(spec), GoesOn(Loop(loop.attempt + 1, spec, Classify(cfg.rules, evidence), evidence));
    }
  }

  /** `agent_retry_loop` as written, with the tips it submits as its result. An accepted bundle has a
      signature no tracked bundle has. */
  method AgentRetryLoop(cfg: LoopConfig, tracker: LifecycleTracker, start: Loop, rounds: nat -> Round)
    returns (tips: seq<u64>, ending: Ending)
    requires tracker.Valid() && NewSignatures(rounds, tracker.inner.bySig)
    modifies tracker, tracker.inner
    ensures tracker.Valid() && tracker.inner == old(tracker.inner)
    ensures tips == Retrying(cfg, start, rounds).tips && ending == Retrying(cfg, start, rounds).ending
    ensures tracker.View() == Recorded(tracker.cfg, old(tracker.View()), ending)
  {
    var loop := start;
    tips := [];
    while loop.attempt < cfg.maxAttempts
      invariant unchanged(tracker) && unchanged(tracker.inner)
      invariant Continues(Retrying(cfg, start, rounds), tips, Retrying(cfg, loop, rounds))
      decreases cfg.maxAttempts - loop.attempt
    {
      RoundContinues(cfg, Retrying(cfg, start, rounds), tips, loop, rounds);
      var tip, next := ExecuteRound(cfg, tracker, loop, rounds(loop.attempt));
      tips := tips + AsSeq(tip);
      match next {
        case Ends(e) => return tips, e;
        case GoesOn(l) => loop := l;
      }
    }
    return tips, CapReached;
  }

  /** The loop always ends, after at most one submission for each attempt left. It reaches the cap
      only by using them all up; and what it goes by is always the verdict on its latest evidence. */
  lemma {:induction false} RetryIsBounded(cfg: LoopConfig, loop: Loop, rounds: nat -> Round)
    requires loop.Valid(cfg.rules)
    ensures var r := Retrying(cfg, loop, rounds);
            && |r.tips| <= Left(cfg, loop)
            && (r.ending.CapReached? ==> |r.tips| == Left(cfg, loop))
            && (r.ending.GaveUp? ==> |r.tips| < Left(cfg, loop))
            && (r.ending.Tracked? ==> r.tips != [] && r.tips[|r.tips| - 1] == r.ending.record.tipLamports)
            && r.last.Valid(cfg.rules)
    decreases cfg.maxAttempts - loop.attempt
  {
    if loop.attempt < cfg.maxAttempts {
      var (_, next) := OneRound(cfg, loop, rounds(loop.attempt));
      if next.GoesOn? {
        RetryIsBounded(cfg, next.loop, rounds);
      }
    }
  }

  /** How many submissions a loop can still make. */
  function Left(cfg: LoopConfig, loop: Loop): nat {
    if loop.attempt < cfg.maxAttempts then cfg.maxAttempts - loop.attempt else 0
  }

  /** The tip of a round is within the cap, or it is the tip that was there before. */
  lemma RoundTipCapped(cfg: LoopConfig, loop: Loop, round: Round)
    ensures var tip := NextTip(loop, RoundPlan(cfg, loop, round));
            tip <= cfg.maxTip || tip == loop.tip
  {
    ClampThenPlan(Decision(loop, round), cfg.maxTip);
  }

  predicate StaysWithin(tips: seq<u64>, cap: u64) {
    forall i, j :: 0 <= i < j < |tips| && tips[i] <= cap ==> tips[j] <= cap
  }

  /** Whatever the model decides, a tip over the cap can only be the one the loop started with; so a
      loop that starts within the cap stays there. */
  lemma {:induction false} RetryTipsCapped(cfg: LoopConfig, loop: Loop, rounds: nat -> Round)
    ensures forall t :: t in Retrying(cfg, loop, rounds).tips ==> t <= cfg.maxTip || t == loop.tip
    ensures StaysWithin(Retrying(cfg, loop, rounds).tips, cfg.maxTip)
    decreases cfg.maxAttempts - loop.attempt
  {
    if loop.attempt < cfg.maxAttempts {
      RoundTipCapped(cfg, loop, rounds(loop.attempt));
      var (tip, next) := OneRound(cfg, loop, rounds(loop.attempt));
      if next.GoesOn? {
        RetryTipsCapped(cfg, next.loop, rounds);
        var rest := Retrying(cfg, next.loop, rounds).tips;
        var tips := Retrying(cfg, loop, rounds).tips;
        assert tips == [next.loop.tip] + rest;
        forall i, j | 0 <= i < j < |tips| && tips[i] <= cfg.maxTip ensures tips[j] <= cfg.maxTip {
          assert tips[j] == rest[j - 1] && rest[j - 1] in rest;
          assert i > 0 ==> tips[i] == rest[i - 1];
        }
      }
    }
  }

  /** The tip that actions come to: the last one they set, within the cap, or else the one before. */
  ghost predicate TipFrom(actions: seq<Action>, cap: u64, before: u64, tip: u64) {
    || (exists n: u64 :: LastTip(actions, n) && tip == Min(n, cap))
    || ((forall a :: a in actions ==> !a.SetTip?) && tip == before)
  }

  /** One round by its decision, up to the first terminal action, and its reply. Only Abandon keeps a bundle
      from being submitted again; an accepted one is tracked as it was submitted, a refused one goes on with
      the verdict on its refusal. */
  lemma RoundMeaning(cfg: LoopConfig, loop: Loop, round: Round)
    ensures var actions, (tip, next) := Effective(Decision(loop, round)), OneRound(cfg, loop, round);
            && (tip.None? <==> actions != [] && actions[|actions| - 1] == Abandon)
            && (tip.None? ==> next == Ends(GaveUp))
            && (tip.Some? ==> TipFrom(actions, cfg.maxTip, loop.tip, tip.value))
            && (tip.Some? && round.reply.Accepted? ==>
                  next == Ends(Tracked(Submission(round.reply.signature, round.reply.slot, tip.value, round.reply.at),
                                       round.p50, round.p75)))
            && (tip.Some? && round.reply.Rejected? ==>
                  next == GoesOn(Loop(loop.attempt + 1, tip.value, cfg.rules.rejection(round.reply.rawError),
                                      SubmitRejection(round.reply.rawError))))
  {
    var decided := Decision(loop, round);
    var actions := Effective(decided);
    ClampThenPlan(decided, cfg.maxTip);
    PlanMeaning(EMPTY_PLAN, actions);
    EffectiveEnds(decided);
    var (tip, _) := OneRound(cfg, loop, round);
    if tip.Some? {
      var chosen := Plan(decided).setTip;
      if chosen.Some? {
        assert LastTip(actions, chosen.value);
      } else {
        NoTipSet(actions);
      }
    }
  }

  lemma {:induction false} EffectiveEnds(actions: seq<Action>)
    ensures var e := Effective(actions);
            e != [] && !e[|e| - 1].Terminal() ==> forall a :: a in e ==> !a.Terminal()
  {
    if actions != [] && !actions[0].Terminal() {
      EffectiveEnds(actions[1..]);
      assert Effective(actions) == [actions[0]] + Effective(actions[1..]);
    }
  }

  lemma {:induction false} NoTipSet(actions: seq<Action>)
    requires ModifyAll(EMPTY_PLAN, actions).setTip.None?
    ensures forall a :: a in actions ==> !a.SetTip?
  {
    if actions != [] {
      var n := |actions| - 1;
      NoTipSet(actions[..n]);
      assert actions == actions[..n] + [actions[n]];
    }
  }

  /** The bundle a loop ends with has a new row, with the signature, slot, time and tip it was submitted with and
      the percentiles of its round; without one the tracker is as it was. */
  lemma EndingIsRecorded(cfg: Config, m: Model, ending: Ending)
    requires Inv(m)
    ensures var m' := Recorded(cfg, m, ending);
            if ending.Tracked? then
              && m.nextId !in m.table && m'.table.Keys == m.table.Keys + {m.nextId}
              && (forall id :: id in m.table ==> m'.table[id] == m.table[id])
              && m'.table[m.nextId].status.Submitted?
              && Remembers(m'.table[m.nextId], ending.record, ending.p50, ending.p75)
            else m' == m
  {
    if ending.Tracked? {
      NewRowRemembers(ending.record, ending.p50, ending.p75, NewRow(ending.record, ending.p50, ending.p75));
    }
  }

  /** The submissions of a loop that began at attempt `first` on some evidence, against the replies. */
  ghost predicate Transcript(r: Retried, first: nat, evidence: Evidence, rounds: nat -> Round) {
    var n := |r.tips|;
    var refused := if r.ending.Tracked? then n - 1 else n;
    && refused >= 0
    && (forall k :: first <= k < first + refused ==> rounds(k).reply.Rejected?)
    && r.last.attempt == first + refused
    && r.last.evidence == (if refused == 0 then evidence
                           else SubmitRejection(rounds(first + refused - 1).reply.rawError))
    && (r.ending.Tracked? ==>
          var last := rounds(first + n - 1);
          && last.reply.Accepted?
          && r.ending == Tracked(Submission(last.reply.signature, last.reply.slot, r.tips[n - 1], last.reply.at),
                                 last.p50, last.p75))
  }

  lemma TranscriptCons(r: Retried, tip: u64, first: nat, evidence: Evidence, rounds: nat -> Round)
    requires rounds(first).reply.Rejected?
    requires Transcript(r, first + 1, SubmitRejection(rounds(first).reply.rawError), rounds)
    ensures Transcript(Retried([tip] + r.tips, r.ending, r.last), first, evidence, rounds)
  {
  }

  /** The whole loop by the replies: every submission but the last was refused, a tracked bundle is the last
      one submitted, just as it was accepted, and the loop ends on the evidence of the last refusal. */
  lemma {:induction false} RetryTranscript(cfg: LoopConfig, loop: Loop, rounds: nat -> Round)
    ensures Transcript(Retrying(cfg, loop, rounds), loop.attempt, loop.evidence, rounds)
    decreases cfg.maxAttempts - loop.attempt
  {
    if loop.attempt < cfg.maxAttempts {
      RoundMeaning(cfg, loop, rounds(loop.attempt));
      var (tip, next) := OneRound(cfg, loop, rounds(loop.attempt));
      if next.GoesOn? {
        RetryTranscript(cfg, next.loop, rounds);
        TranscriptCons(Retrying(cfg, next.loop, rounds), tip.value, loop.attempt, loop.evidence, rounds);
      }
    }
  }

  // ---------------------------------------------------------------------------
  // How long the fallback keeps trying
  // ---------------------------------------------------------------------------

  /** Every round is decided by the baseline and every rejection has the same verdict. */
  ghost predicate Monotonous(cfg: LoopConfig, rounds: nat -> Round, kind: FailureKind) {
    forall n: nat ::
      && rounds(n).llm.None? && rounds(n).reply.Rejected?
      && cfg.rules.rejection(rounds(n).reply.rawError).kind == kind
  }

  /** The last attempt the baseline will make after a failure of this kind, if it ever gives up. */
  function LastAttempt(kind: FailureKind): Option<nat> {
    match kind
    case ComputeExceeded => Some(0)
    case BundleFailure => Some(2)
    case AuctionLost => Some(3)
    case TransportError => Some(3)
    case ExpiredBlockhash => None
    case FeeTooLow => None
  }

  /** The tip the baseline sets for an outbid bundle: twice the old one, or the 75th percentile if that is
      more, within the cap. */
  function RaisedTip(cap: u64, tip: u64, p75: Option<u64>): u64 {
    Min(cap, Max(p75.GetOr(0), Min(2 * tip, U64_MAX)))
  }

  /** The baseline's plan in full: the ending goes by the kind of failure and the attempts made, a resubmission
      gets a new blockhash unless the transport was at fault, which is waited for, and only an outbid bundle
      gets a new tip. */
  lemma BaselinePlan(cfg: LoopConfig, loop: Loop, round: Round)
    requires round.llm.None?
    ensures var plan, kind := RoundPlan(cfg, loop, round), loop.classification.kind;
            && (plan.terminal.WillAbandon? <==> LastAttempt(kind).Some? && loop.attempt >= LastAttempt(kind).value)
            && (plan.terminal.WillResubmit? <==> !plan.terminal.WillAbandon?)
            && (plan.refresh <==> plan.terminal.WillResubmit? && kind != TransportError)
            && plan.holdSlots == (if kind == TransportError && plan.terminal.WillResubmit? then 4 else 0)
            && plan.setTip == if kind == FeeTooLow then Some(RaisedTip(cfg.maxTip, loop.tip, round.p75)) else None
  {
    var actions := Decision(loop, round);
    ClampThenPlan(actions, cfg.maxTip);
    ShortPlan(actions);
  }

  /** Plans of at most three actions, worked out. */
  lemma ShortPlan(actions: seq<Action>)
    requires 1 <= |actions| <= 3 && forall i :: 0 <= i < |actions| ==> (actions[i].Terminal() <==> i == |actions| - 1)
    ensures |actions| == 1 ==> Plan(actions) == Modify(EMPTY_PLAN, actions[0])
    ensures |actions| == 2 ==> Plan(actions) == Modify(Modify(EMPTY_PLAN, actions[0]), actions[1])
    ensures |actions| == 3 ==> Plan(actions) == Modify(Modify(Modify(EMPTY_PLAN, actions[0]), actions[1]), actions[2])
  {
    var n := |actions| - 1;
    assert actions == actions[..n] + [actions[n]] + [];
    EffectiveStops(actions[..n], actions[n], []);
    assert actions[..n] + [actions[n]] == actions;
    ModifiesInOrder(actions);
  }

  lemma ModifiesInOrder(actions: seq<Action>)
    ensures |actions| == 1 ==> ModifyAll(EMPTY_PLAN, actions) == Modify(EMPTY_PLAN, actions[0])
    ensures |actions| == 2 ==> ModifyAll(EMPTY_PLAN, actions) == Modify(Modify(EMPTY_PLAN, actions[0]), actions[1])
    ensures |actions| == 3 ==>
              ModifyAll(EMPTY_PLAN, actions) ==
              Modify(Modify(Modify(EMPTY_PLAN, actions[0]), actions[1]), actions[2])
  {
    if |actions| == 2 {
      ModifiesInOrder(actions[..1]);
    } else if |actions| == 3 {
      ModifiesInOrder(actions[..2]);
    }
  }

  /** Left to the baseline, a bundle that keeps failing in one way is submitted exactly until the last
      attempt for that kind of failure or the cap, whichever comes first, and unless its tip is
      at fault the tip stays the same. */
  lemma {:induction false} BaselinePersists(cfg: LoopConfig, loop: Loop, rounds: nat -> Round)
    requires Monotonous(cfg, rounds, loop.classification.kind)
    ensures var r, kind := Retrying(cfg, loop, rounds), loop.classification.kind;
            var last := if LastAttempt(kind).None? then cfg.maxAttempts
                else Min(cfg.maxAttempts, LastAttempt(kind).value);
            && |r.tips| == (if loop.attempt < last then last - loop.attempt else 0)
            && (r.ending.CapReached? || r.ending.GaveUp?)
            && (r.ending.CapReached? <==> loop.attempt + |r.tips| >= cfg.maxAttempts)
            && (!kind.FeeTooLow? ==> forall t :: t in r.tips ==> t == loop.tip)
    decreases cfg.maxAttempts - loop.attempt
  {
    if loop.attempt < cfg.maxAttempts {
      BaselinePlan(cfg, loop, rounds(loop.attempt));
      var (_, next) := OneRound(cfg, loop, rounds(loop.attempt));
      if next.GoesOn? {
        BaselinePersists(cfg, next.loop, rounds);
      }
    }
  }

  // ---------------------------------------------------------------------------
  // The fallback doubles an outbid tip
  // ---------------------------------------------------------------------------

  function Pow2(k: nat): nat {
    if k == 0 then 1 else 2 * Pow2(k - 1)
  }

  /** The next `k` rounds are decided by the baseline, each on the verdict that the tip was too low. */
  predicate OutbidFor(cfg: LoopConfig, loop: Loop, rounds: nat -> Round, k: nat)
    decreases k
  {
    k > 0 ==>
      && loop.classification.kind.FeeTooLow?
      && loop.attempt < cfg.maxAttempts
      && rounds(loop.attempt).llm.None?
      && (k > 1 ==> rounds(loop.attempt).reply.Rejected?
                    && OutbidFor(cfg, Refused(cfg, loop, rounds(loop.attempt)), rounds, k - 1))
  }

  /** A single such round: at least twice the tip, unless the cap or the integer range is in the way. */
  lemma OutbidRound(cfg: LoopConfig, loop: Loop, round: Round)
    requires loop.classification.kind.FeeTooLow? && round.llm.None?
    ensures var plan := RoundPlan(cfg, loop, round);
            && plan.terminal.WillResubmit?
            && Min(cfg.maxTip, 2 * loop.tip) <= NextTip(loop, plan) <= cfg.maxTip
  {
    BaselinePlan(cfg, loop, round);
  }

  /** After `k` outbid rounds the tip is at least `2^k` times the first one, or the cap. It never falls
      on the way exactly when it starts within the cap. */
  lemma {:induction false} FallbackDoubles(cfg: LoopConfig, loop: Loop, rounds: nat -> Round, k: nat)
    requires k > 0 && OutbidFor(cfg, loop, rounds, k)
    ensures var tips := Retrying(cfg, loop, rounds).tips;
            && |tips| >= k
            && tips[k - 1] >= Min(cfg.maxTip, Pow2(k) * loop.tip)
            && (loop.tip <= cfg.maxTip <==> Rising([loop.tip] + tips[..k]))
    decreases k
  {
    var round := rounds(loop.attempt);
    OutbidRound(cfg, loop, round);
    var tip := NextTip(loop, RoundPlan(cfg, loop, round));
    var r := Retrying(cfg, loop, rounds);
    assert r.tips[0] == tip;
    if k == 1 {
      assert Pow2(1) == 2 * Pow2(0);
      assert r.tips[..1] == [tip];
      RisingCons(loop.tip, [tip]);
    } else {
      var next := Refused(cfg, loop, round);
      var rest := Retrying(cfg, next, rounds);
      FallbackDoubles(cfg, next, rounds, k - 1);
      assert r.tips == [tip] + rest.tips;
      assert r.tips[..k] == [tip] + rest.tips[..k - 1];
      Compound(cfg.maxTip, loop.tip, tip, k);
      RisingCons(loop.tip, [tip] + rest.tips[..k - 1]);
    }
  }

  predicate Rising(s: seq<u64>) {
    forall i :: 0 < i < |s| ==> s[i - 1] <= s[i]
  }

  lemma RisingCons(x: u64, s: seq<u64>)
    requires s != []
    ensures Rising([x] + s) <==> x <= s[0] && Rising(s)
  {
    var t := [x] + s;
    if x <= s[0] && Rising(s) {
      forall i | 0 < i < |t| ensures t[i - 1] <= t[i] {
        assert i > 1 ==> s[i - 2] <= s[i - 1];
      }
    }
    if Rising(t) {
      assert t[0] <= t[1];
      forall i | 0 < i < |s| ensures s[i - 1] <= s[i] {
        assert t[i] <= t[i + 1];
      }
    }
  }

  lemma Compound(cap: nat, t0: nat, t1: nat, k: nat)
    requires k > 0 && t1 >= Min(cap, 2 * t0)
    ensures Min(cap, Pow2(k - 1) * t1) >= Min(cap, Pow2(k) * t0)
  {
    Pow2Positive(k - 1);
    var p := Pow2(k - 1);
    if t1 >= 2 * t0 {
      Scale(p, 2 * t0, t1);
      assert p * (2 * t0) == (2 * p) * t0;
    } else {
      Scale(t1, 1, p);
    }
  }

  lemma Scale(p: nat, a: nat, b: nat)
    requires a <= b
    ensures p * a <= p * b
  {
  }

  lemma {:induction false} Pow2Positive(k: nat)
    ensures Pow2(k) >= 1
  {
    if k > 0 {
      Pow2Positive(k - 1);
    }
  }
}
