/** crates/submitter: the shared limiter in front of the block engine. Times are nanoseconds. */
module RateLimiter {
  import opened Numbers

  const NANOS: nat := 1_000_000_000

  /** `Duration::from_secs(1) / rps`, with `rps` at least 1: division truncates. */
  function Rate(rps: nat): nat {
    if rps == 0 then 1 else rps
  }

  function Interval(rps: nat): nat {
    NANOS / Rate(rps)
  }

  /** The limiter's shared fields, with one method for each section that runs atomically. */
  class JitoRateLimiter {
    const interval: nat
    var nextAt: int
    var highPending: nat

    constructor (rps: nat, now: int)
      ensures Shared() == Fresh(rps, now)
    {
      interval, nextAt, highPending := Interval(rps), now, 0;
    }

    ghost function Shared(): SharedState
      reads this
    {
      SharedState(interval, nextAt, highPending)
    }

    method RaiseHigh()
      modifies this
      ensures Shared() == old(Shared()).(highPending := old(highPending) + 1)
    {
      highPending := highPending + 1;
    }

    method HighIsPending() returns (b: bool)
      ensures b <==> highPending > 0
    {
      b := highPending > 0;
    }

    /** The section under the mutex: take the next free start and say how long to wait for it. */
    method Reserve(now: int) returns (wait: nat)
      modifies this
      ensures Shared() == Reserved(old(Shared()), now)
      ensures now + wait == StartAt(old(Shared()), now)
    {
      var start := Max(nextAt, now);
      nextAt := start + interval;
      wait := if start > now then start - now else 0;
    }

    method LowerHigh()
      requires highPending > 0
      modifies this
      ensures Shared() == old(Shared()).(highPending := old(highPending) - 1)
    {
      highPending := highPending - 1;
    }
  }

  datatype SharedState = SharedState(interval: nat, nextAt: int, highPending: nat)

  function Fresh(rps: nat, now: int): SharedState {
    SharedState(Interval(rps), now, 0)
  }

  function StartAt(s: SharedState, now: int): int {
    Max(s.nextAt, now)
  }

  function Reserved(s: SharedState, now: int): SharedState {
    s.(nextAt := StartAt(s, now) + s.interval)
  }

  // ---------------------------------------------------------------------------
  // Interleavings of callers
  // ---------------------------------------------------------------------------

  datatype Priority = High | Low

  /** Where a caller of `acquire` is. `Raised` and `Holding` are High callers between increment and
      decrement; `Cleared` is a Low caller that has seen no High one pending. */
  datatype Pc = Entering | Raised | Cleared | Holding(slot: nat) | Waiting(slot: nat) | Released(slot: nat)

  datatype Caller = Caller(priority: Priority, pc: Pc)

  /** `starts` lists the reserved starts in order of reservation; a caller's `slot` is its place there. */
  datatype State = State(shared: SharedState, callers: map<int, Caller>, createdAt: int, now: int, starts: seq<int>)

  datatype Step =
    | Tick(now: int)
    | Arrive(id: int, priority: Priority)
    | Raise(id: int)
    | Check(id: int)
    | Take(id: int)
    | Lower(id: int)
    | Release(id: int)

  function Init(rps: nat, now: int): State {
    State(Fresh(rps, now), map[], now, now, [])
  }

  function At(s: State, id: int): Pc
    requires id in s.callers
  {
    s.callers[id].pc
  }

  function Move(s: State, id: int, pc: Pc): State
    requires id in s.callers
  {
    s.(callers := s.callers[id := s.callers[id].(pc := pc)])
  }

  /** One step of one caller, or the passing of time; a step that is not possible changes nothing, as
      when a Low caller finds a High one pending and sleeps. */
  function Next(s: State, step: Step): State {
    match step
    case Tick(now) => if now >= s.now then s.(now := now) else s
    case Arrive(id, priority) =>
      if id in s.callers then s else s.(callers := s.callers[id := Caller(priority, Entering)])
    case Raise(id) =>
      if id in s.callers && s.callers[id] == Caller(High, Entering) then
        Move(s, id, Raised).(shared := s.shared.(highPending := s.shared.highPending + 1))
      else s
    case Check(id) =>
      if id in s.callers && s.callers[id] == Caller(Low, Entering) && s.shared.highPending == 0 then
        Move(s, id, Cleared)
      else s
    case Take(id) =>
      if id in s.callers && (At(s, id).Raised? || At(s, id).Cleared?) then
        var slot := |s.starts|;
        Move(s, id, if At(s, id).Raised? then Holding(slot) else Waiting(slot))
          .(shared := Reserved(s.shared, s.now), starts := s.starts + [StartAt(s.shared, s.now)])
      else s
    case Lower(id) =>
      if id in s.callers && At(s, id).Holding? && s.shared.highPending > 0 then
        Move(s, id, Waiting(At(s, id).slot)).(shared := s.shared.(highPending := s.shared.highPending - 1))
      else s
    case Release(id) =>
      if id in s.callers && At(s, id).Waiting? && At(s, id).slot < |s.starts| && s.starts[At(s, id).slot] <= s.now then
        Move(s, id, Released(At(s, id).slot))
      else s
  }

  function Run(s: State, steps: seq<Step>): State {
    if steps == [] then s else Next(Run(s, steps[..|steps| - 1]), steps[|steps| - 1])
  }

  /** Callers contending for one limiter, one atomic section at a time: what they do to it through
      its methods is what `Next` says. */
  class Contention {
    const limiter: JitoRateLimiter
    const createdAt: int
    var callers: map<int, Caller>
    var now: int
    var starts: seq<int>

    constructor (rps: nat, at: int)
      ensures fresh(limiter) && View() == Init(rps, at)
    {
      limiter := new JitoRateLimiter(rps, at);
      createdAt, callers, now, starts := at, map[], at, [];
    }

    ghost function View(): State
      reads this, limiter
    {
      State(limiter.Shared(), callers, createdAt, now, starts)
    }

    method Perform(step: Step)
      modifies this, limiter
      ensures View() == Next(old(View()), step)
    {
      match step
      case Tick(t) =>
        if t >= now {
          now := t;
        }
      case Arrive(id, priority) =>
        if id !in callers {
          callers := callers[id := Caller(priority, Entering)];
        }
      case Raise(id) =>
        if id in callers && callers[id] == Caller(High, Entering) {
          limiter.RaiseHigh();
          callers := callers[id := Caller(High, Raised)];
        }
      case Check(id) =>
        if id in callers && callers[id] == Caller(Low, Entering) {
          var mustYield := limiter.HighIsPending();
          if !mustYield {
            callers := callers[id := Caller(Low, Cleared)];
          }
        }
      case Take(id) =>
        if id in callers && (callers[id].pc.Raised? || callers[id].pc.Cleared?) {
          var wait := limiter.Reserve(now);
          var pc := if callers[id].pc.Raised? then Holding(|starts|) else Waiting(|starts|);
          callers := callers[id := callers[id].(pc := pc)];
          starts := starts + [now + wait];
        }
      case Lower(id) =>
        if id in callers && callers[id].pc.Holding? && limiter.highPending > 0 {
          limiter.LowerHigh();
          callers := callers[id := callers[id].(pc := Waiting(callers[id].pc.slot))];
        }
      case Release(id) =>
        if id in callers && callers[id].pc.Waiting? {
          var slot := callers[id].pc.slot;
          if slot < |starts| && starts[slot] <= now {
            callers := callers[id := callers[id].(pc := Released(slot))];
          }
        }
    }
  }

  /** The High callers between increment and decrement. */
  function Pending(s: State): set<int> {
    set id | id in s.callers && (At(s, id).Raised? || At(s, id).Holding?)
  }

  predicate HasSlot(pc: Pc) {
    pc.Holding? || pc.Waiting? || pc.Released?
  }

  /** Starts are at least an interval apart, the first no earlier than the limiter's creation. */
  ghost predicate Spaced(starts: seq<int>, interval: nat, createdAt: int) {
    && (starts != [] ==> starts[0] >= createdAt)
    && (forall i :: 0 <= i < |starts| - 1 ==> starts[i] + interval <= starts[i + 1])
  }

  ghost predicate SlotsOk(s: State) {
    && (forall id :: id in s.callers && HasSlot(At(s, id)) ==> At(s, id).slot < |s.starts|)
    && (forall i, j | i in s.callers && j in s.callers && i != j && HasSlot(At(s, i)) && HasSlot(At(s, j)) ::
          At(s, i).slot != At(s, j).slot)
    && (forall id :: id in s.callers && At(s, id).Released? ==> s.starts[At(s, id).slot] <= s.now)
  }

  /** Only High callers raise the count, only Low ones wait to be cleared. */
  ghost predicate RolesOk(s: State) {
    && (forall id :: id in s.callers && (At(s, id).Raised? || At(s, id).Holding?) ==> s.callers[id].priority == High)
    && (forall id :: id in s.callers && At(s, id).Cleared? ==> s.callers[id].priority == Low)
  }

  ghost predicate StartsOk(s: State) {
    && Spaced(s.starts, s.shared.interval, s.createdAt)
    && s.shared.nextAt >= s.createdAt
    && s.shared.nextAt == (if s.starts == [] then s.createdAt else s.starts[|s.starts| - 1] + s.shared.interval)
    && s.now >= s.createdAt
  }

  ghost predicate Inv(s: State) {
    && s.shared.highPending == |Pending(s)|
    && RolesOk(s)
    && StartsOk(s)
    && SlotsOk(s)
  }

  lemma PendingAfter(s: State, step: Step)
    ensures Pending(Next(s, step)) == match step
      case Raise(id) =>
        if id in s.callers && s.callers[id] == Caller(High, Entering) then Pending(s) + {id} else Pending(s)
      case Lower(id) =>
        if id in s.callers && At(s, id).Holding? && s.shared.highPending > 0 then Pending(s) - {id} else Pending(s)
      case Take(id) =>
        Pending(s)
      case _ => Pending(s)
  {
  }

  lemma CountAfter(s: State, step: Step)
    requires s.shared.highPending == |Pending(s)|
    ensures Next(s, step).shared.highPending == |Pending(Next(s, step))|
  {
    PendingAfter(s, step);
    match step
    case Lower(id) =>
      if id in s.callers && At(s, id).Holding? {
        assert id in Pending(s);
      }
    case Raise(id) =>
      if id in s.callers && s.callers[id] == Caller(High, Entering) {
        assert id !in Pending(s);
      }
    case _ =>
  }

  lemma RolesStay(s: State, step: Step)
    requires RolesOk(s)
    ensures RolesOk(Next(s, step))
  {
  }

  lemma StartsStay(s: State, step: Step)
    requires StartsOk(s)
    ensures StartsOk(Next(s, step))
  {
  }

  /** A caller has the slot it had, or has just reserved the newest one. */
  lemma SlotStays(s: State, step: Step, id: int)
    requires SlotsOk(s)
    requires var s' := Next(s, step); id in s'.callers && HasSlot(At(s', id))
    ensures var s' := Next(s, step);
            var slot := At(s', id).slot;
            && s.starts <= s'.starts && s.now <= s'.now && slot < |s'.starts|
            && (|| (id in s.callers && HasSlot(At(s, id)) && At(s, id).slot == slot)
                || (step == Take(id) && slot == |s.starts|))
            && (At(s', id).Released? ==> s'.starts[slot] <= s'.now)
  {
  }

  lemma SlotsStay(s: State, step: Step)
    requires SlotsOk(s)
    ensures SlotsOk(Next(s, step))
  {
    var s' := Next(s, step);
    forall id | id in s'.callers && HasSlot(At(s', id))
      ensures At(s', id).slot < |s'.starts| && (At(s', id).Released? ==> s'.starts[At(s', id).slot] <= s'.now)
    {
      SlotStays(s, step, id);
    }
    forall i, j | i in s'.callers && j in s'.callers && i != j && HasSlot(At(s', i)) && HasSlot(At(s', j))
      ensures At(s', i).slot != At(s', j).slot
    {
      SlotStays(s, step, i);
      SlotStays(s, step, j);
    }
  }

  lemma NextKeepsInv(s: State, step: Step)
    requires Inv(s)
    ensures Inv(Next(s, step))
  {
    CountAfter(s, step);
    RolesStay(s, step);
    StartsStay(s, step);
    SlotsStay(s, step);
  }

  lemma {:induction false} RunKeepsInv(s: State, steps: seq<Step>)
    requires Inv(s)
    ensures Inv(Run(s, steps))
  {
    if steps != [] {
      RunKeepsInv(s, steps[..|steps| - 1]);
      NextKeepsInv(Run(s, steps[..|steps| - 1]), steps[|steps| - 1]);
    }
  }

  lemma InitInv(rps: nat, now: int)
    ensures Inv(Init(rps, now))
  {
  }

  /** In every interleaving the shared count is the number of High callers between their increment
      and their decrement, so the decrement never goes below zero. */
  lemma CountIsExact(rps: nat, now: int, steps: seq<Step>)
    ensures var s := Run(Init(rps, now), steps);
            && s.shared.highPending == |Pending(s)|
            && (forall id :: id in s.callers && At(s, id).Holding? ==> s.shared.highPending > 0)
  {
    InitInv(rps, now);
    RunKeepsInv(Init(rps, now), steps);
    var s := Run(Init(rps, now), steps);
    forall id | id in s.callers && At(s, id).Holding? ensures s.shared.highPending > 0 {
      assert id in Pending(s);
    }
  }

  // ---------------------------------------------------------------------------
  // Bounded overtaking
  // ---------------------------------------------------------------------------

  /** The Low callers that have seen no High caller pending and have not reserved yet. */
  function PastCheck(s: State): set<int> {
    set id | id in s.callers && At(s, id).Cleared?
  }

  function LowReserved(s: State): set<int> {
    set id | id in s.callers && s.callers[id].priority == Low && HasSlot(At(s, id))
  }

  /** While a High caller has raised the count and not yet reserved, nobody gets past the check. */
  lemma NobodyClears(s: State, step: Step, h: int)
    requires Inv(s) && h in s.callers && At(s, h).Raised? && step != Take(h)
    ensures var s' := Next(s, step);
            && h in s'.callers && At(s', h).Raised?
            && LowReserved(s') + PastCheck(s') <= LowReserved(s) + PastCheck(s)
            && LowReserved(s) <= LowReserved(s')
  {
    assert h in Pending(s);
  }

  /** Nothing a caller does in these steps is the reservation of `h`. */
  predicate Before(steps: seq<Step>, h: int) {
    forall i :: 0 <= i < |steps| ==> steps[i] != Take(h)
  }

  /** Between a High caller's increment and its own reservation, in every interleaving, the Low callers
      that reserve are all among those already past their check at that increment. */
  lemma {:induction false} BoundedOvertaking(s: State, steps: seq<Step>, h: int)
    requires Inv(s) && h in s.callers && At(s, h).Raised?
    requires Before(steps, h)
    ensures var s' := Run(s, steps);
            && Inv(s') && h in s'.callers && At(s', h).Raised?
            && LowReserved(s') - LowReserved(s) <= PastCheck(s)
            && LowReserved(s') + PastCheck(s') <= LowReserved(s) + PastCheck(s)
  {
    if steps != [] {
      var n := |steps| - 1;
      BoundedOvertaking(s, steps[..n], h);
      NextKeepsInv(Run(s, steps[..n]), steps[n]);
      NobodyClears(Run(s, steps[..n]), steps[n], h);
    }
  }

  /** A caller goes ahead of `h`: it reserves in some run in which `h` has not. */
  ghost predicate CanOvertake(s: State, h: int, l: int) {
    l !in LowReserved(s) && exists steps :: Before(steps, h) && l in LowReserved(Run(s, steps))
  }

  /** The Low callers that can overtake a High one are exactly those past their check at its increment. */
  lemma OvertakersArePastCheck(s: State, h: int, l: int)
    requires Inv(s) && h in s.callers && At(s, h).Raised?
    ensures CanOvertake(s, h, l) <==> l in PastCheck(s)
  {
    if l !in LowReserved(s) && exists steps :: Before(steps, h) && l in LowReserved(Run(s, steps)) {
      var steps :| Before(steps, h) && l in LowReserved(Run(s, steps));
      BoundedOvertaking(s, steps, h);
    }
    if l in PastCheck(s) {
      TakeOne(s, l);
      assert Before([Take(l)], h);
    }
  }

  lemma TakeOne(s: State, l: int)
    requires Inv(s) && l in PastCheck(s)
    ensures Run(s, [Take(l)]) == Next(s, Take(l))
    ensures l !in LowReserved(s) && l in LowReserved(Run(s, [Take(l)]))
  {
    assert [Take(l)][..0] == [];
    assert Run(s, []) == s;
  }

  ghost predicate GoesFirst(s: State, h: int) {
    forall steps :: Before(steps, h) ==> LowReserved(Run(s, steps)) <= LowReserved(s)
  }

  /** So a High caller goes ahead of every Low one that has not reserved yet, in every interleaving, if and
      only if none is past its check when it raises the count. */
  lemma GoesFirstIffNonePastCheck(s: State, h: int)
    requires Inv(s) && h in s.callers && At(s, h).Raised?
    ensures GoesFirst(s, h) <==> PastCheck(s) == {}
  {
    if l :| l in PastCheck(s) {
      TakeOne(s, l);
      assert Before([Take(l)], h);
      assert !(LowReserved(Run(s, [Take(l)])) <= LowReserved(s));
    } else {
      forall steps | Before(steps, h) ensures LowReserved(Run(s, steps)) <= LowReserved(s) {
        BoundedOvertaking(s, steps, h);
      }
    }
  }

  /** A Low caller looks, a High one raises the count, and the Low one reserves. */
  function Overtaking(): seq<Step> {
    [Arrive(1, Low), Check(1), Arrive(2, High), Raise(2)]
  }

  lemma RunSnoc(s: State, steps: seq<Step>, step: Step)
    ensures Run(s, steps + [step]) == Next(Run(s, steps), step)
  {
    assert (steps + [step])[..|steps|] == steps;
  }

  lemma TwoSteps(s: State, a: Step, b: Step)
    ensures Run(s, [a, b]) == Next(Next(s, a), b)
  {
    RunSnoc(s, [], a);
    RunSnoc(s, [a], b);
    assert [] + [a] == [a] && [a] + [b] == [a, b];
  }

  lemma ThreeSteps(s: State, a: Step, b: Step, c: Step)
    ensures Run(s, [a, b, c]) == Next(Next(Next(s, a), b), c)
  {
    TwoSteps(s, a, b);
    RunSnoc(s, [a, b], c);
    assert [a, b] + [c] == [a, b, c];
  }

  lemma FourSteps(s: State, a: Step, b: Step, c: Step, d: Step)
    ensures Run(s, [a, b, c, d]) == Next(Next(Next(Next(s, a), b), c), d)
  {
    RunSnoc(s, [a, b, c], d);
    ThreeSteps(s, a, b, c);
    assert [a, b, c] + [d] == [a, b, c, d];
  }

  /** Where the callers are once the count has been raised. */
  function BothUnderWay(rps: nat, now: int): State {
    State(SharedState(Interval(rps), now, 1), map[1 := Caller(Low, Cleared), 2 := Caller(High, Raised)], now, now, [])
  }

  lemma LowIsPastCheck(rps: nat, now: int)
    ensures Run(Init(rps, now), Overtaking()) == BothUnderWay(rps, now)
  {
    FourSteps(Init(rps, now), Arrive(1, Low), Check(1), Arrive(2, High), Raise(2));
  }

  /** That does happen: from the start, the Low caller gets the first start and the High one the second. */
  lemma LowGoesFirst(rps: nat, now: int)
    ensures var s := Run(Init(rps, now), Overtaking());
            && 2 in s.callers && At(s, 2).Raised? && PastCheck(s) == {1}
            && var s' := Run(s, [Take(1), Take(2)]);
               && 1 in s'.callers && At(s', 1) == Waiting(0)
               && 2 in s'.callers && At(s', 2) == Holding(1)
               && s'.starts == [now, now + Interval(rps)]
  {
    LowIsPastCheck(rps, now);
    TwoSteps(BothUnderWay(rps, now), Take(1), Take(2));
  }

  // ---------------------------------------------------------------------------
  // Rate
  // ---------------------------------------------------------------------------

  lemma {:induction false} SpacedApart(starts: seq<int>, interval: nat, createdAt: int, i: nat, j: nat)
    requires Spaced(starts, interval, createdAt) && i <= j < |starts|
    ensures starts[j] >= starts[i] + (j - i) * interval
  {
    if i < j {
      SpacedApart(starts, interval, createdAt, i, j - 1);
      assert (j - i) * interval == (j - 1 - i) * interval + interval;
    }
  }

  lemma {:induction false} IntervalIsFixed(s: State, steps: seq<Step>)
    ensures Run(s, steps).shared.interval == s.shared.interval
    ensures Run(s, steps).createdAt == s.createdAt
  {
    if steps != [] {
      IntervalIsFixed(s, steps[..|steps| - 1]);
    }
  }

  /** In every interleaving the k-th reservation, counting from 0, starts at least k intervals after
      the limiter was made. */
  lemma ReservationsAreSpaced(rps: nat, now: int, steps: seq<Step>, k: nat)
    requires k < |Run(Init(rps, now), steps).starts|
    ensures Run(Init(rps, now), steps).starts[k] >= now + k * Interval(rps)
  {
    InitInv(rps, now);
    RunKeepsInv(Init(rps, now), steps);
    IntervalIsFixed(Init(rps, now), steps);
    SpacedApart(Run(Init(rps, now), steps).starts, Interval(rps), now, 0, k);
  }

  /** A caller that may reserve gets the very moment it asks at, unless less than an interval has passed since
      the start before, and then one interval after that. It is let through from then on, and not before. */
  lemma NoNeedlessWait(rps: nat, now: int, steps: seq<Step>, id: int)
    requires var s := Run(Init(rps, now), steps); id in s.callers && (At(s, id).Raised? || At(s, id).Cleared?)
    ensures var s, s' := Run(Init(rps, now), steps), Run(Init(rps, now), steps + [Take(id)]);
            var n := |s.starts|;
            && |s'.starts| == n + 1 && s'.starts[..n] == s.starts
            && s'.starts[n] == (if n == 0 || s.starts[n - 1] + Interval(rps) <= s.now then s.now
                                else s.starts[n - 1] + Interval(rps))
            && id in s'.callers && At(s', id) == if At(s, id).Raised? then Holding(n) else Waiting(n)
  {
    InitInv(rps, now);
    RunKeepsInv(Init(rps, now), steps);
    IntervalIsFixed(Init(rps, now), steps);
    RunSnoc(Init(rps, now), steps, Take(id));
  }

  lemma ReleasedOnTime(s: State, id: int)
    requires SlotsOk(s) && id in s.callers && At(s, id).Waiting?
    ensures var s' := Next(s, Release(id));
            id in s'.callers && (At(s', id).Released? <==> s.starts[At(s, id).slot] <= s.now)
  {
  }

  function Done(s: State): set<int> {
    set id | id in s.callers && At(s, id).Released?
  }

  /** Distinct callers hold distinct slots, so bounding the slots bounds the callers. */
  lemma {:induction false} FewSlots(s: State, ids: set<int>, n: nat)
    requires SlotsOk(s)
    requires forall id :: id in ids ==> id in s.callers && HasSlot(At(s, id)) && At(s, id).slot < n
    ensures |ids| <= n
    decreases n
  {
    if n == 0 {
      assert forall id :: id !in ids;
    } else if t :| t in ids && At(s, t).slot == n - 1 {
      FewSlots(s, ids - {t}, n - 1);
    } else {
      FewSlots(s, ids, n - 1);
    }
  }

  lemma MulMono(a: int, b: int, c: nat)
    ensures a <= b ==> a * c <= b * c
  {
  }

  lemma IntervalsWithin(k: nat, interval: nat, elapsed: int)
    requires interval > 0 && k * interval <= elapsed
    ensures k <= elapsed / interval
  {
    var q := elapsed / interval;
    assert elapsed < q * interval + interval;
    assert (q + 1) * interval == q * interval + interval;
    MulMono(q + 1, k, interval);
  }

  lemma ReleasedSlot(rps: nat, now: int, steps: seq<Step>, id: int)
    requires id in Done(Run(Init(rps, now), steps))
    ensures var s := Run(Init(rps, now), steps); At(s, id).slot * Interval(rps) <= s.now - now
  {
    InitInv(rps, now);
    RunKeepsInv(Init(rps, now), steps);
    var s := Run(Init(rps, now), steps);
    ReservationsAreSpaced(rps, now, steps, At(s, id).slot);
  }

  /** Among `n` callers that have been let through, one has a slot no lower than `n - 1`. */
  lemma LateSlot(s: State) returns (id: int)
    requires SlotsOk(s) && Done(s) != {}
    ensures id in Done(s) && At(s, id).slot >= |Done(s)| - 1
  {
    if forall i :: i in Done(s) ==> At(s, i).slot < |Done(s)| - 1 {
      FewSlots(s, Done(s), |Done(s)| - 1);
      assert false;
    }
    id :| id in Done(s) && At(s, id).slot >= |Done(s)| - 1;
  }

  /** In every interleaving the calls let through but the first have taken an interval each, so there are at
      most 1 + elapsed / interval of them. */
  lemma ReleasesAreBounded(rps: nat, now: int, steps: seq<Step>)
    ensures var s, interval := Run(Init(rps, now), steps), Interval(rps);
            && (Done(s) != {} ==> (|Done(s)| - 1) * interval <= s.now - now)
            && (interval > 0 ==> |Done(s)| <= 1 + (s.now - now) / interval)
  {
    var s, interval := Run(Init(rps, now), steps), Interval(rps);
    InitInv(rps, now);
    RunKeepsInv(Init(rps, now), steps);
    if Done(s) != {} {
      var id := LateSlot(s);
      ReleasedSlot(rps, now, steps, id);
      MulMono(|Done(s)| - 1, At(s, id).slot, interval);
      if interval > 0 {
        IntervalsWithin(|Done(s)| - 1, interval, s.now - now);
      }
    } else if interval > 0 {
      IntervalIsFixed(Init(rps, now), steps);
      IntervalsWithin(0, interval, s.now - now);
    }
  }

  /** The reserved starts within one second from `t`. */
  function InSecond(starts: seq<int>, t: int): set<int> {
    set i | 0 <= i < |starts| && t <= starts[i] < t + NANOS
  }

  /** In every interleaving any half-open second holds at most `rps` reserved starts, one if `rps` is 0. */
  ghost predicate KeepsRate(rps: nat, now: int) {
    forall steps: seq<Step>, t: int :: |InSecond(Run(Init(rps, now), steps).starts, t)| <= Max(rps, 1)
  }

  lemma {:induction false} Range(ids: set<int>, a: int, n: nat)
    requires forall i :: i in ids ==> a <= i < a + n
    ensures |ids| <= n
    decreases n
  {
    if n == 0 {
      assert forall i :: i !in ids;
    } else {
      Range(ids - {a + n - 1}, a, n - 1);
    }
  }

  /** The first reservation that starts at `t` or later. */
  lemma FirstFrom(starts: seq<int>, t: int) returns (a: nat)
    ensures a <= |starts| && forall i :: 0 <= i < a ==> starts[i] < t
    ensures a < |starts| ==> t <= starts[a]
  {
    a := 0;
    while a < |starts| && starts[a] < t
      invariant a <= |starts| && forall i :: 0 <= i < a ==> starts[i] < t
    {
      a := a + 1;
    }
  }

  lemma IntervalTimesRate(rps: nat)
    ensures Rate(rps) * Interval(rps) <= NANOS
    ensures Rate(rps) * Interval(rps) == NANOS <==> NANOS % Rate(rps) == 0
  {
  }

  lemma SecondIsFull(rps: nat, starts: seq<int>, createdAt: int, t: int)
    requires Spaced(starts, Interval(rps), createdAt) && NANOS % Rate(rps) == 0
    ensures |InSecond(starts, t)| <= Rate(rps)
  {
    var ids := InSecond(starts, t);
    var a := FirstFrom(starts, t);
    IntervalTimesRate(rps);
    forall i | i in ids ensures a <= i < a + Rate(rps) {
      SpacedApart(starts, Interval(rps), createdAt, a, i);
      MulMono(Rate(rps), i - a, Interval(rps));
    }
    Range(ids, a, Rate(rps));
  }

  lemma {:induction false} RunConcat(s: State, a: seq<Step>, b: seq<Step>)
    ensures Run(s, a + b) == Run(Run(s, a), b)
  {
    if b == [] {
      assert a + b == a;
    } else {
      assert (a + b)[..|a + b| - 1] == a + b[..|b| - 1];
      RunConcat(s, a, b[..|b| - 1]);
    }
  }

  /** `n` Low callers one after the other, in no time at all. */
  function Burst(n: nat): seq<Step> {
    if n == 0 then [] else Burst(n - 1) + [Arrive(n, Low), Check(n), Take(n)]
  }

  /** The state after a burst of `n` callers. */
  ghost predicate AfterBurst(s: State, now: int, d: nat, n: nat) {
    && s.now == now && s.shared.highPending == 0 && s.shared.interval == d
    && (forall id :: id in s.callers.Keys ==> id <= n)
    && s.shared.nextAt == now + n * d
    && |s.starts| == n && (forall i :: 0 <= i < n ==> s.starts[i] == now + i * d)
  }

  lemma BurstGrows(s: State, now: int, d: nat, n: nat)
    requires AfterBurst(s, now, d, n)
    ensures AfterBurst(Next(Next(Next(s, Arrive(n + 1, Low)), Check(n + 1)), Take(n + 1)), now, d, n + 1)
  {
  }

  lemma {:induction false} BurstStarts(rps: nat, now: int, n: nat)
    ensures AfterBurst(Run(Init(rps, now), Burst(n)), now, Interval(rps), n)
  {
    if n > 0 {
      BurstStarts(rps, now, n - 1);
      var s := Run(Init(rps, now), Burst(n - 1));
      RunConcat(Init(rps, now), Burst(n - 1), [Arrive(n, Low), Check(n), Take(n)]);
      ThreeSteps(s, Arrive(n, Low), Check(n), Take(n));
      BurstGrows(s, now, Interval(rps), n - 1);
    }
  }

  /** When the interval was rounded down, one caller too many fits into the first second. */
  lemma BurstOverfills(rps: nat, now: int)
    requires NANOS % Rate(rps) != 0
    ensures |InSecond(Run(Init(rps, now), Burst(Rate(rps) + 1)).starts, now)| > Rate(rps)
  {
    var n := Rate(rps) + 1;
    BurstStarts(rps, now, n);
    var starts := Run(Init(rps, now), Burst(n)).starts;
    forall i | 0 <= i < n ensures i in InSecond(starts, now) {
      IntervalTimesRate(rps);
      MulMono(i, Rate(rps), Interval(rps));
    }
    AllOf(InSecond(starts, now), n);
  }

  lemma {:induction false} AllOf(ids: set<int>, n: nat)
    requires forall i :: 0 <= i < n ==> i in ids
    ensures |ids| >= n
    decreases n
  {
    if n > 0 {
      AllOf(ids - {n - 1}, n - 1);
    }
  }

  /** The promised rate is kept in every interleaving exactly when it divides a second evenly, as the
      documented tiers of 1 and 5 requests per second do. */
  lemma RateIsKeptIffItDivides(rps: nat, now: int)
    ensures KeepsRate(rps, now) <==> 1_000_000_000 % Max(rps, 1) == 0
  {
    if NANOS % Rate(rps) == 0 {
      forall steps: seq<Step>, t: int ensures |InSecond(Run(Init(rps, now), steps).starts, t)| <= Rate(rps) {
        InitInv(rps, now);
        RunKeepsInv(Init(rps, now), steps);
        IntervalIsFixed(Init(rps, now), steps);
        SecondIsFull(rps, Run(Init(rps, now), steps).starts, now, t);
      }
    } else {
      BurstOverfills(rps, now);
    }
  }
}
