/** crates/agent and crates/orchestrator: decisions, the guardrail on tips, and execution plans. */
module Agent {
  import opened Wrappers
  import opened Numbers
  import opened Failure

  datatype Action = RefreshBlockhash | SetTip(lamports: u64) | Resubmit | Hold(slots: u64) | Abandon {
    predicate Terminal() {
      Resubmit? || Abandon?
    }
  }

  /** `clamp_actions`: cap every tip and say whether anything was capped. */
  function ClampAction(action: Action, maxTip: u64): Action {
    if action.SetTip? && action.lamports > maxTip then SetTip(maxTip) else action
  }

  function ClampActions(actions: seq<Action>, maxTip: u64): (seq<Action>, bool) {
    (seq(|actions|, i requires 0 <= i < |actions| => ClampAction(actions[i], maxTip)),
     exists a :: a in actions && a.SetTip? && a.lamports > maxTip)
  }

  /** `BaselineAgent::decide_sync`, on the parts of the context it looks at. */
  function DecideSync(kind: FailureKind, tip: u64, p75: Option<u64>, attempt: nat): seq<Action> {
    match kind
    case ExpiredBlockhash => [RefreshBlockhash, Resubmit]
    case FeeTooLow =>
      var doubled := SaturatingDouble(tip);
      [RefreshBlockhash, SetTip(if p75.Some? then Max(p75.value, doubled) else doubled), Resubmit]
    case ComputeExceeded => [Abandon]
    case BundleFailure => if attempt <= 2 then [RefreshBlockhash, Resubmit] else [Abandon]
    case AuctionLost => if attempt <= 3 then [RefreshBlockhash, Resubmit] else [Abandon]
    case TransportError => if attempt <= 3 then [Hold(4), Resubmit] else [Abandon]
  }

  datatype Terminal = WillResubmit | WillAbandon | NoTerminal

  datatype ExecPlan = ExecPlan(refresh: bool, setTip: Option<u64>, holdSlots: u64, terminal: Terminal)

  const EMPTY_PLAN: ExecPlan := ExecPlan(false, None, 0, NoTerminal)

  function Modify(plan: ExecPlan, action: Action): ExecPlan {
    match action
    case RefreshBlockhash => plan.(refresh := true)
    case SetTip(n) => plan.(setTip := Some(n))
    case Hold(n) => plan.(holdSlots := SaturatingAdd(plan.holdSlots, n))
    case Resubmit => plan.(terminal := WillResubmit)
    case Abandon => plan.(terminal := WillAbandon)
  }

  /** The actions up to and including the first terminal one. */
  function Effective(actions: seq<Action>): seq<Action> {
    if actions == [] then []
    else if actions[0].Terminal() then [actions[0]]
    else [actions[0]] + Effective(actions[1..])
  }

  function ModifyAll(plan: ExecPlan, actions: seq<Action>): ExecPlan {
    if actions == [] then plan else Modify(ModifyAll(plan, actions[..|actions| - 1]), actions[|actions| - 1])
  }

  function Plan(actions: seq<Action>): ExecPlan {
    ModifyAll(EMPTY_PLAN, Effective(actions))
  }

  /** `plan_actions` as written: modifiers accumulate until the first terminal action stops the loop. */
  method PlanActions(actions: seq<Action>) returns (plan: ExecPlan)
    ensures plan == Plan(actions)
  {
    plan := EMPTY_PLAN;
    for i := 0 to |actions|
      invariant Effective(actions) == actions[..i] + Effective(actions[i..])
      invariant plan == ModifyAll(EMPTY_PLAN, actions[..i])
    {
      assert actions[..i] + [actions[i]] == actions[..i + 1];
      assert actions[i..][1..] == actions[i + 1..];
      assert actions[..i + 1][..i] == actions[..i];
      plan := Modify(plan, actions[i]);
      if actions[i].Terminal() {
        assert Effective(actions) == actions[..i + 1];
        return;
      }
      assert Effective(actions) == actions[..i + 1] + Effective(actions[i + 1..]);
    }
    assert actions[..|actions|] + [] == actions;
    assert Effective(actions[|actions|..]) == [];
    assert actions == actions[..|actions|];
  }

  function TotalHold(actions: seq<Action>): nat {
    if actions == [] then 0
    else
      var last := actions[|actions| - 1];
      TotalHold(actions[..|actions| - 1]) + if last.Hold? then last.slots else 0
  }

  /** The last tip the actions set is the one at `i`. */
  predicate SetsLast(actions: seq<Action>, n: u64, i: nat)
    requires i < |actions|
  {
    actions[i] == SetTip(n) && forall j :: i < j < |actions| ==> !actions[j].SetTip?
  }

  ghost predicate LastTip(actions: seq<Action>, n: u64) {
    exists i: nat :: i < |actions| && SetsLast(actions, n, i)
  }

  lemma LastTipIs(actions: seq<Action>, n: u64)
    requires actions != []
    ensures var last := actions[|actions| - 1];
            LastTip(actions, n) <==> if last.SetTip? then last.lamports == n else LastTip(actions[..|actions| - 1], n)
  {
    var k := |actions| - 1;
    if actions[k] == SetTip(n) {
      assert SetsLast(actions, n, k);
    } else if !actions[k].SetTip? && LastTip(actions[..k], n) {
      var i: nat :| i < k && SetsLast(actions[..k], n, i);
      assert forall j :: i < j < k ==> actions[j] == actions[..k][j];
      assert SetsLast(actions, n, i);
    } else if LastTip(actions, n) {
      var i: nat :| i < |actions| && SetsLast(actions, n, i);
      assert SetsLast(actions[..k], n, i);
    }
  }

  lemma {:induction false} TipMeaning(plan: ExecPlan, actions: seq<Action>, n: u64)
    ensures ModifyAll(plan, actions).setTip == Some(n) <==>
            LastTip(actions, n) || (plan.setTip == Some(n) && forall a :: a in actions ==> !a.SetTip?)
  {
    if actions != [] {
      var k := |actions| - 1;
      TipMeaning(plan, actions[..k], n);
      LastTipIs(actions, n);
      assert actions == actions[..k] + [actions[k]];
    }
  }

  lemma {:induction false} EndingMeaning(plan: ExecPlan, actions: seq<Action>)
    requires forall a :: a in actions ==> !a.Terminal()
    ensures ModifyAll(plan, actions).terminal == plan.terminal
  {
    if actions != [] {
      var k := |actions| - 1;
      assert actions[k] in actions && forall a :: a in actions[..k] ==> a in actions;
      EndingMeaning(plan, actions[..k]);
    }
  }

  lemma {:induction false} ModifierMeaning(plan: ExecPlan, actions: seq<Action>)
    ensures var r := ModifyAll(plan, actions);
            && (r.refresh <==> plan.refresh || RefreshBlockhash in actions)
            && r.holdSlots == Min(U64_MAX, plan.holdSlots + TotalHold(actions))
  {
    if actions != [] {
      var k := |actions| - 1;
      ModifierMeaning(plan, actions[..k]);
      assert actions == actions[..k] + [actions[k]];
    }
  }

  /** What a plan means: whether a refresh was asked for, the slots to hold for altogether as far as the
      integer range goes, the last tip set, and the way it ends. */
  lemma PlanMeaning(plan: ExecPlan, actions: seq<Action>)
    ensures var r := ModifyAll(plan, actions);
            && (r.refresh <==> plan.refresh || RefreshBlockhash in actions)
            && r.holdSlots == Min(U64_MAX, plan.holdSlots + TotalHold(actions))
            && (forall n: u64 :: r.setTip == Some(n) <==>
                  LastTip(actions, n) || (plan.setTip == Some(n) && forall a :: a in actions ==> !a.SetTip?))
            && ((forall a :: a in actions ==> !a.Terminal()) ==> r.terminal == plan.terminal)
            && (actions != [] && actions[|actions| - 1].Terminal() ==>
                  r.terminal == if actions[|actions| - 1].Resubmit? then WillResubmit else WillAbandon)
  {
    ModifierMeaning(plan, actions);
    forall n: u64
      ensures ModifyAll(plan, actions).setTip == Some(n) <==>
              LastTip(actions, n) || (plan.setTip == Some(n) && forall a :: a in actions ==> !a.SetTip?)
    {
      TipMeaning(plan, actions, n);
    }
    if forall a :: a in actions ==> !a.Terminal() {
      EndingMeaning(plan, actions);
    }
  }

  /** The first terminal action decides the ending, and whatever follows it counts for nothing. */
  lemma EndsAtFirstTerminal(front: seq<Action>, last: Action, rest: seq<Action>)
    requires forall a :: a in front ==> !a.Terminal()
    ensures Plan(front) == ModifyAll(EMPTY_PLAN, front)
    ensures last.Terminal() ==>
              Plan(front + [last] + rest) ==
              ModifyAll(EMPTY_PLAN, front).(terminal := if last.Resubmit? then WillResubmit else WillAbandon)
  {
    EffectiveOfOpen(front);
    if last.Terminal() {
      EffectiveStops(front, last, rest);
      assert (front + [last])[..|front|] == front;
    }
  }

  lemma {:induction false} EffectiveOfOpen(actions: seq<Action>)
    requires forall a :: a in actions ==> !a.Terminal()
    ensures Effective(actions) == actions
  {
    if actions != [] {
      assert actions[0] in actions;
      EffectiveOfOpen(actions[1..]);
    }
  }

  lemma {:induction false} EffectiveStops(front: seq<Action>, last: Action, rest: seq<Action>)
    requires last.Terminal() && forall a :: a in front ==> !a.Terminal()
    ensures Effective(front + [last] + rest) == front + [last]
  {
    if front != [] {
      assert front[0] in front;
      assert (front + [last] + rest)[1..] == front[1..] + [last] + rest;
      EffectiveStops(front[1..], last, rest);
    }
  }

  function CapTip(tip: Option<u64>, maxTip: u64): Option<u64> {
    match tip case None => None case Some(n) => Some(Min(n, maxTip))
  }

  lemma {:induction false} EffectiveOfClamped(actions: seq<Action>, maxTip: u64)
    ensures Effective(ClampActions(actions, maxTip).0) == ClampActions(Effective(actions), maxTip).0
  {
    if actions != [] {
      var clamped := ClampActions(actions, maxTip).0;
      assert clamped[1..] == ClampActions(actions[1..], maxTip).0;
      EffectiveOfClamped(actions[1..], maxTip);
    }
  }

  lemma {:induction false} ModifyAllClamped(actions: seq<Action>, maxTip: u64)
    ensures ModifyAll(EMPTY_PLAN, ClampActions(actions, maxTip).0) ==
            ModifyAll(EMPTY_PLAN, actions).(setTip := CapTip(ModifyAll(EMPTY_PLAN, actions).setTip, maxTip))
  {
    if actions != [] {
      var n := |actions| - 1;
      assert ClampActions(actions, maxTip).0[..n] == ClampActions(actions[..n], maxTip).0;
      ModifyAllClamped(actions[..n], maxTip);
    }
  }

  lemma ClampSaysSo(actions: seq<Action>, maxTip: u64)
    ensures ClampActions(actions, maxTip).1 <==> ClampActions(actions, maxTip).0 != actions
  {
    var clamped := ClampActions(actions, maxTip).0;
    if a :| a in actions && a.SetTip? && a.lamports > maxTip {
      var i :| 0 <= i < |actions| && actions[i] == a;
      assert clamped[i] != actions[i];
    }
  }

  /** Capping the actions and then planning is capping the plan: order, holds, refreshes and the way it
      ends are untouched. The guardrail reports that it has acted exactly when an action has changed. */
  lemma ClampThenPlan(actions: seq<Action>, maxTip: u64)
    ensures Plan(ClampActions(actions, maxTip).0) == Plan(actions).(setTip := CapTip(Plan(actions).setTip, maxTip))
    ensures ClampActions(actions, maxTip).1 <==> ClampActions(actions, maxTip).0 != actions
  {
    ClampSaysSo(actions, maxTip);
    EffectiveOfClamped(actions, maxTip);
    ModifyAllClamped(Effective(actions), maxTip);
  }

  // ---------------------------------------------------------------------------
  // The tip of a normal submission
  // ---------------------------------------------------------------------------

  const STALE_TIP_FALLBACK: u64 := 10_000

  datatype TipPercentile = P50 | P75 | P95

  datatype TipSnapshot = TipSnapshot(p50: u64, p75: u64, p95: u64)

  function Select(percentile: TipPercentile, s: TipSnapshot): u64 {
    match percentile
    case P50 => s.p50
    case P75 => s.p75
    case P95 => s.p95
  }

  datatype TipPolicy = TipPolicy(tip: u64, p50: Option<u64>, p75: Option<u64>)

  function NormalTipPolicy(snapshot: Option<TipSnapshot>, stale: bool, percentile: TipPercentile,
                           maxTip: u64): (policy: TipPolicy)
    ensures Min(1_000, maxTip) <= policy.tip <= maxTip
    ensures snapshot.Some? && !stale ==>
              var s := snapshot.value;
              var wanted := if percentile == P50 then s.p50 else if percentile == P75 then s.p75 else s.p95;
              && (1_000 <= wanted <= maxTip ==> policy.tip == wanted)
              && (wanted < 1_000 <= maxTip ==> policy.tip == 1_000)
    ensures (snapshot.None? || stale) && 10_000 <= maxTip ==> policy.tip == 10_000
    ensures policy.p50.Some? == snapshot.Some? && policy.p75.Some? == snapshot.Some?
    ensures snapshot.Some? ==> policy.p50 == Some(snapshot.value.p50) && policy.p75 == Some(snapshot.value.p75)
  {
    match snapshot
    case Some(s) =>
      if !stale then TipPolicy(Min(Max(Select(percentile, s), 1_000), maxTip), Some(s.p50), Some(s.p75))
      else TipPolicy(Min(STALE_TIP_FALLBACK, maxTip), Some(s.p50), Some(s.p75))
    case None => TipPolicy(Min(STALE_TIP_FALLBACK, maxTip), None, None)
  }
}
