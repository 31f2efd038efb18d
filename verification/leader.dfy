/** crates/leader: the slot clock, the cached leader schedule, and the search for the next leader
    window. Instants are milliseconds on a monotonic clock. */
module Leader {
  import opened Wrappers
  import opened Numbers
  import opened StreamEvents

  /** Leaders keep the slot for this many consecutive slots, aligned to multiples of it. */
  const LEADER_SLOTS_PER_GROUP: nat := 4

  function GroupStart(slot: nat): (start: nat)
    ensures start % 4 == 0 && start <= slot < start + 4
  {
    slot - slot % LEADER_SLOTS_PER_GROUP
  }

  /** The first group boundary strictly after a slot. */
  function NextGroup(slot: nat): nat {
    GroupStart(slot) + LEADER_SLOTS_PER_GROUP
  }

  /** Does the schedule give this slot to a leader in the set? */
  predicate Led(start: nat, leaders: seq<int>, jito: set<int>, slot: nat) {
    start <= slot < start + |leaders| && leaders[slot - start] in jito
  }

  /** All slots of one group that the schedule covers have the same leader. */
  ghost predicate ByGroups(start: nat, leaders: seq<int>) {
    forall a, b :: 0 <= a < |leaders| && 0 <= b < |leaders| && GroupStart(start + a) == GroupStart(start + b) ==>
      leaders[a] == leaders[b]
  }

  /** Where the search begins. */
  function FirstProbe(current: nat, start: nat): nat {
    Max(NextGroup(current), start)
  }

  /** The first slot that is led, looking at `slot` and every fourth slot after it. */
  function SearchFrom(slot: nat, start: nat, leaders: seq<int>, jito: set<int>): Option<(nat, int)>
    requires start <= slot
    decreases start + |leaders| - slot
  {
    if slot >= start + |leaders| then None
    else if leaders[slot - start] in jito then Some((slot, leaders[slot - start]))
    else SearchFrom(slot + LEADER_SLOTS_PER_GROUP, start, leaders, jito)
  }

  function Search(current: nat, start: nat, leaders: seq<int>, jito: set<int>): Option<(nat, int)> {
    SearchFrom(FirstProbe(current, start), start, leaders, jito)
  }

  /** `next_jito_leader` as written. */
  method NextJitoLeader(current: nat, start: nat, leaders: seq<int>, jito: set<int>) returns (r: Option<(nat, int)>)
    ensures r == Search(current, start, leaders, jito)
  {
    if leaders == [] {
      return None;
    }
    var end := start + |leaders|;
    var slot := Max(NextGroup(current), start);
    while slot < end
      invariant start <= slot
      invariant SearchFrom(slot, start, leaders, jito) == Search(current, start, leaders, jito)
      decreases end - slot
    {
      var leader := leaders[slot - start];
      if leader in jito {
        return Some((slot, leader));
      }
      slot := slot + LEADER_SLOTS_PER_GROUP;
    }
    r := None;
  }

  /** The search agrees with looking at every slot from the next boundary on: it returns the least slot
      with a leader in the set, always a group start, and nothing only when there is none. */
  ghost predicate IsFullScan(first: nat, start: nat, leaders: seq<int>, jito: set<int>, r: Option<(nat, int)>) {
    match r
    case None => forall x: nat :: first <= x ==> !Led(start, leaders, jito, x)
    case Some((slot, leader)) =>
      && first <= slot && Led(start, leaders, jito, slot) && leader == leaders[slot - start]
      && (forall x: nat :: first <= x < slot ==> !Led(start, leaders, jito, x))
      && GroupStart(slot) == slot
  }

  /** From a boundary the schedule covers, one look per group sees all of the group. */
  lemma {:induction false} AlignedSearch(slot: nat, start: nat, leaders: seq<int>, jito: set<int>)
    requires start <= slot && GroupStart(slot) == slot && ByGroups(start, leaders)
    ensures IsFullScan(slot, start, leaders, jito, SearchFrom(slot, start, leaders, jito))
    decreases start + |leaders| - slot
  {
    if slot < start + |leaders| && leaders[slot - start] !in jito {
      forall x: nat | slot <= x < slot + LEADER_SLOTS_PER_GROUP ensures !Led(start, leaders, jito, x) {
        assert GroupStart(start + (x - start)) == GroupStart(start + (slot - start));
      }
      AlignedSearch(slot + LEADER_SLOTS_PER_GROUP, start, leaders, jito);
    }
  }

  /** When stepping by groups is as good as a full scan: the schedule begins no later than the next
      boundary, or on a boundary. */
  predicate Aligned(current: nat, start: nat) {
    start <= NextGroup(current) || start % LEADER_SLOTS_PER_GROUP == 0
  }

  ghost predicate AlwaysFullScan(current: nat, start: nat) {
    forall leaders: seq<int>, jito: set<int> :: ByGroups(start, leaders) ==>
      IsFullScan(FirstProbe(current, start), start, leaders, jito, Search(current, start, leaders, jito))
  }

  /** Stepping group by group equals scanning every slot, for all schedules and leader sets, exactly
      in that case. */
  lemma GroupSteppingIsFullScan(current: nat, start: nat)
    ensures AlwaysFullScan(current, start) <==> Aligned(current, start)
  {
    if Aligned(current, start) {
      forall leaders: seq<int>, jito: set<int> | ByGroups(start, leaders)
        ensures IsFullScan(FirstProbe(current, start), start, leaders, jito, Search(current, start, leaders, jito))
      {
        AlignedSearch(FirstProbe(current, start), start, leaders, jito);
      }
    } else {
      MissedGroup(current, start);
    }
  }

  /** Otherwise the steps run out of phase, and can pass the end of the schedule before reaching a
      group that has only just begun. */
  lemma MissedGroup(current: nat, start: nat)
    requires !Aligned(current, start)
    ensures !AlwaysFullScan(current, start)
  {
    OutOfPhase(current, start);
  }

  /** Leader 1 has only the last of these slots, the first one of a group. */
  function LateLeaders(start: nat): seq<int> {
    var first := LEADER_SLOTS_PER_GROUP - start % LEADER_SLOTS_PER_GROUP;
    seq(first + 1, i requires 0 <= i < first + 1 => if i < first then 0 else 1)
  }

  lemma OutOfPhase(current: nat, start: nat)
    requires !Aligned(current, start)
    ensures var leaders := LateLeaders(start);
            && ByGroups(start, leaders) && current < start && leaders != []
            && Search(current, start, leaders, {1}) == None
            && !IsFullScan(FirstProbe(current, start), start, leaders, {1}, None)
  {
    var leaders := LateLeaders(start);
    assert ByGroups(start, leaders) by {
      forall a, b | 0 <= a < |leaders| && 0 <= b < |leaders| && GroupStart(start + a) == GroupStart(start + b)
        ensures leaders[a] == leaders[b]
      {
      }
    }
    assert FirstProbe(current, start) == start;
    assert Search(current, start, leaders, {1}) == None by {
      assert SearchFrom(start + LEADER_SLOTS_PER_GROUP, start, leaders, {1}) == None;
    }
    assert Led(start, leaders, {1}, start + |leaders| - 1);
  }

  /** Whatever the schedule, the slot found lies ahead of the current one. */
  lemma {:induction false} SearchFindsAhead(slot: nat, start: nat, leaders: seq<int>, jito: set<int>)
    requires start <= slot
    ensures var r := SearchFrom(slot, start, leaders, jito);
            r.Some? ==>
              && slot <= r.value.0 && Led(start, leaders, jito, r.value.0)
              && r.value.1 == leaders[r.value.0 - start]
    decreases start + |leaders| - slot
  {
    if slot < start + |leaders| && leaders[slot - start] !in jito {
      SearchFindsAhead(slot + LEADER_SLOTS_PER_GROUP, start, leaders, jito);
    }
  }

  // ---------------------------------------------------------------------------
  // The tracker
  // ---------------------------------------------------------------------------

  datatype LeaderError =
    | NoClock | ClockStale | NoSchedule | ScheduleStale | ScheduleExhausted | NoJitoData | JitoStale
    | NoJitoLeaderInLookahead

  datatype LeaderWindow = LeaderWindow(currentSlot: nat, nextJitoLeaderSlot: nat, slotsUntil: nat, leader: int,
                                       isBam: bool)

  datatype Outcome = Open(window: LeaderWindow) | Unhealthy(error: LeaderError)

  datatype Schedule = Schedule(start: nat, leaders: seq<int>, fetchedAt: int)

  datatype ValidatorSets = ValidatorSets(jito: set<int>, bam: set<int>, fetchedAt: int)

  datatype LeaderConfig = LeaderConfig(
    thresholdSlots: nat,
    maxClockStaleness: int,
    maxScheduleAge: int,
    maxJitoAge: int)

  /** The last part of `current_window`: everything after the clock has been read. */
  function WindowAt(config: LeaderConfig, current: nat, schedule: Option<Schedule>, sets: Option<ValidatorSets>,
                    now: int): Outcome {
    if schedule.None? then Unhealthy(NoSchedule)
    else if now - schedule.value.fetchedAt > config.maxScheduleAge then Unhealthy(ScheduleStale)
    else if current >= schedule.value.start + |schedule.value.leaders| then Unhealthy(ScheduleExhausted)
    else if sets.None? then Unhealthy(NoJitoData)
    else if now - sets.value.fetchedAt > config.maxJitoAge then Unhealthy(JitoStale)
    else
      var r := Search(current, schedule.value.start, schedule.value.leaders, sets.value.jito);
      match r
      case None => Unhealthy(NoJitoLeaderInLookahead)
      case Some((slot, leader)) =>
        SearchFindsAhead(FirstProbe(current, schedule.value.start), schedule.value.start, schedule.value.leaders,
                         sets.value.jito);
        Open(LeaderWindow(current, slot, slot - current, leader, leader in sets.value.bam))
  }

  /** Even when the schedule has been replaced since the clock was read, a window never says that the
      leader is already on: it lies at least one slot ahead. */
  lemma WindowIsAhead(config: LeaderConfig, current: nat, schedule: Option<Schedule>, sets: Option<ValidatorSets>,
                      now: int)
    ensures var o := WindowAt(config, current, schedule, sets, now);
            o.Open? ==>
              && o.window.slotsUntil >= 1
              && o.window.currentSlot + o.window.slotsUntil == o.window.nextJitoLeaderSlot
              && o.window.leader in sets.value.jito
              && Led(schedule.value.start, schedule.value.leaders, sets.value.jito, o.window.nextJitoLeaderSlot)
  {
    if schedule.Some? && sets.Some? {
      SearchFindsAhead(FirstProbe(current, schedule.value.start), schedule.value.start, schedule.value.leaders,
                       sets.value.jito);
    }
  }

  /** The clock, both caches, and the refreshes under way: each has read the clock and is waiting for the
      leaders of the slots from there on. */
  datatype State = State(
    slot: Option<nat>,
    updatedAt: int,
    schedule: Option<Schedule>,
    sets: Option<ValidatorSets>,
    fetching: map<nat, nat>)

  const START: State := State(None, 0, None, None, map[])

  /** What can happen, in any order: an event comes in; a refresh of the schedule reads the clock, and gets
      its leaders or an error some time later; the validator sets come in. */
  datatype Step =
    | Ingest(event: StreamEvent, now: int)
    | BeginRefresh(refresh: nat)
    | FinishRefresh(refresh: nat, leaders: seq<int>, now: int)
    | FailRefresh(refresh: nat)
    | InstallSets(jito: set<int>, bam: set<int>, now: int)

  /** A refresh without a clock to read does not begin. */
  function Next(s: State, step: Step): State {
    match step
    case Ingest(event, now) =>
      if !event.Slot? || !event.status.SlotProcessed? then s
      else s.(slot := Some(if s.slot.Some? then Max(s.slot.value, event.slot) else event.slot), updatedAt := now)
    case BeginRefresh(k) =>
      if s.slot.None? || k in s.fetching then s else s.(fetching := s.fetching[k := s.slot.value])
    case FinishRefresh(k, leaders, now) =>
      if k !in s.fetching then s
      else s.(schedule := Some(Schedule(s.fetching[k], leaders, now)), fetching := s.fetching - {k})
    case FailRefresh(k) => s.(fetching := s.fetching - {k})
    case InstallSets(jito, bam, now) => s.(sets := Some(ValidatorSets(jito, bam, now)))
  }

  function Run(s: State, steps: seq<Step>): State {
    if steps == [] then s else Next(Run(s, steps[..|steps| - 1]), steps[|steps| - 1])
  }

  /** The cached schedule begins no later than the clock, and so do those on their way. */
  ghost predicate StartsBehind(s: State) {
    && (s.schedule.Some? ==> s.slot.Some? && s.schedule.value.start <= s.slot.value)
    && (forall k :: k in s.fetching ==> s.slot.Some? && s.fetching[k] <= s.slot.value)
  }

  /** The clock never goes back, so a schedule fetched from an earlier reading of it, however many slots ago
      and whatever other refreshes overtook it, does not begin ahead of it. */
  lemma StartsStayBehind(s: State, step: Step)
    requires StartsBehind(s)
    ensures StartsBehind(Next(s, step))
    ensures s.slot.Some? ==> Next(s, step).slot.Some? && s.slot.value <= Next(s, step).slot.value
  {
  }

  lemma {:induction false} RunStaysBehind(s: State, steps: seq<Step>)
    requires StartsBehind(s)
    ensures StartsBehind(Run(s, steps))
  {
    if steps != [] {
      RunStaysBehind(s, steps[..|steps| - 1]);
      StartsStayBehind(Run(s, steps[..|steps| - 1]), steps[|steps| - 1]);
    }
  }

  /** `current_window` with nothing happening in the middle of it. */
  function Window(config: LeaderConfig, s: State, now: int): Outcome {
    if s.slot.None? then Unhealthy(NoClock)
    else if now - s.updatedAt > config.maxClockStaleness then Unhealthy(ClockStale)
    else WindowAt(config, s.slot.value, s.schedule, s.sets, now)
  }

  /** A window is ahead and names the next led group as a full scan would; the lack of one means that a
      full scan finds none. */
  ghost predicate TrueWindow(s: State, o: Outcome) {
    && (o.Open? ==>
          && s.schedule.Some? && s.sets.Some? && s.slot == Some(o.window.currentSlot)
          && o.window.slotsUntil >= 1
          && o.window.nextJitoLeaderSlot == o.window.currentSlot + o.window.slotsUntil
          && o.window.leader in s.sets.value.jito && (o.window.isBam <==> o.window.leader in s.sets.value.bam))
    && (&& s.slot.Some? && s.schedule.Some? && s.sets.Some?
        && ByGroups(s.schedule.value.start, s.schedule.value.leaders) ==>
          var scan := (r: Option<(nat, int)>) =>
            IsFullScan(NextGroup(s.slot.value), s.schedule.value.start, s.schedule.value.leaders, s.sets.value.jito, r);
          && (o.Open? ==> scan(Some((o.window.nextJitoLeaderSlot, o.window.leader))))
          && (o == Unhealthy(NoJitoLeaderInLookahead) ==> scan(None)))
  }

  lemma WindowIsTrue(config: LeaderConfig, s: State, now: int)
    requires StartsBehind(s)
    ensures TrueWindow(s, Window(config, s, now))
  {
    if s.slot.Some? {
      WindowIsAhead(config, s.slot.value, s.schedule, s.sets, now);
      if s.schedule.Some? && s.sets.Some? && ByGroups(s.schedule.value.start, s.schedule.value.leaders) {
        AlignedSearch(NextGroup(s.slot.value), s.schedule.value.start, s.schedule.value.leaders, s.sets.value.jito);
      }
    }
  }

  /** After any interleaving of events and refreshes, a window tells the truth. */
  lemma WindowsAreTrue(config: LeaderConfig, steps: seq<Step>, now: int)
    ensures TrueWindow(Run(START, steps), Window(config, Run(START, steps), now))
  {
    RunStaysBehind(START, steps);
    WindowIsTrue(config, Run(START, steps), now);
  }

  /** Each error means what its name says of the clock, the schedule or the sets, and is reported only when
      what comes before it is in order; a window is the answer when all of it is. */
  lemma HealthComesFirst(config: LeaderConfig, s: State, now: int)
    ensures var o := Window(config, s, now);
            var ticking := s.slot.Some? && now - s.updatedAt <= config.maxClockStaleness;
            var scheduled := ticking && s.schedule.Some? && now - s.schedule.value.fetchedAt <= config.maxScheduleAge;
            var covered := scheduled && s.slot.value < s.schedule.value.start + |s.schedule.value.leaders|;
            var known := covered && s.sets.Some? && now - s.sets.value.fetchedAt <= config.maxJitoAge;
            && (o == Unhealthy(NoClock) <==> s.slot.None?)
            && (o == Unhealthy(ClockStale) <==> s.slot.Some? && !ticking)
            && (o == Unhealthy(NoSchedule) <==> ticking && s.schedule.None?)
            && (o == Unhealthy(ScheduleStale) <==> ticking && s.schedule.Some? && !scheduled)
            && (o == Unhealthy(ScheduleExhausted) <==> scheduled && !covered)
            && (o == Unhealthy(NoJitoData) <==> covered && s.sets.None?)
            && (o == Unhealthy(JitoStale) <==> covered && s.sets.Some? && !known)
            && (o.Open? || o == Unhealthy(NoJitoLeaderInLookahead) <==> known)
  {
  }

  // ---------------------------------------------------------------------------
  // Where the clock and the caches come from
  // ---------------------------------------------------------------------------

  predicate Ticks(step: Step) {
    step.Ingest? && step.event.Slot? && step.event.status.SlotProcessed?
  }

  /** The clock stands at the greatest Processed slot, and was last seen alive at the last one. */
  ghost predicate ClockFrom(s: State, steps: seq<Step>) {
    && (s.slot.None? <==> forall i :: 0 <= i < |steps| ==> !Ticks(steps[i]))
    && (s.slot.Some? ==>
          && (forall i :: 0 <= i < |steps| && Ticks(steps[i]) ==> steps[i].event.slot <= s.slot.value)
          && (exists i :: 0 <= i < |steps| && Ticks(steps[i]) && steps[i].event.slot == s.slot.value)
          && (exists i :: 0 <= i < |steps| && Ticks(steps[i]) && steps[i].now == s.updatedAt
                          && forall j :: i < j < |steps| ==> !Ticks(steps[j])))
  }

  lemma ClockTicks(s: State, steps: seq<Step>, step: Step)
    requires ClockFrom(s, steps) && Ticks(step)
    ensures ClockFrom(Next(s, step), steps + [step])
  {
    var all, n := steps + [step], |steps|;
    assert all[n] == step && forall i :: 0 <= i < n ==> all[i] == steps[i];
    if s.slot.Some? {
      var i :| 0 <= i < n && Ticks(steps[i]) && steps[i].event.slot == s.slot.value;
      assert Ticks(all[i]);
    }
    assert Ticks(all[n]);
  }

  lemma ClockStays(s: State, steps: seq<Step>, step: Step)
    requires ClockFrom(s, steps) && !Ticks(step)
    ensures ClockFrom(Next(s, step), steps + [step])
  {
    var all, n := steps + [step], |steps|;
    assert all[n] == step && forall i :: 0 <= i < n ==> all[i] == steps[i];
    if s.slot.Some? {
      var i :| 0 <= i < n && Ticks(steps[i]) && steps[i].event.slot == s.slot.value;
      var j :| 0 <= j < n && Ticks(steps[j]) && steps[j].now == s.updatedAt
        && forall k :: j < k < n ==> !Ticks(steps[k]);
      assert Ticks(all[i]) && Ticks(all[j]);
    }
  }

  /** The schedule is that of the last refresh to finish, and begins where the clock stood when that refresh
      began. */
  ghost predicate ScheduleFrom(s: State, steps: seq<Step>) {
    && (forall k :: k in s.fetching ==> BegunAt(steps, k, s.fetching[k]))
    && (s.schedule.None? <==> forall l :: 0 <= l < |steps| ==> !Installs(steps, l))
    && (s.schedule.Some? ==>
          exists j :: 0 <= j < |steps| && steps[j].FinishRefresh? && FinishedAs(steps, j, s.schedule.value)
                      && forall l :: j < l < |steps| ==> !Installs(steps, l))
  }

  ghost predicate BegunAt(steps: seq<Step>, refresh: nat, start: nat) {
    exists i :: 0 <= i < |steps| && steps[i] == BeginRefresh(refresh) && Run(START, steps[..i]).slot == Some(start)
  }

  ghost predicate FinishedAs(steps: seq<Step>, j: nat, schedule: Schedule)
    requires j < |steps|
  {
    && steps[j].FinishRefresh? && steps[j].leaders == schedule.leaders && steps[j].now == schedule.fetchedAt
    && BegunAt(steps[..j], steps[j].refresh, schedule.start)
  }

  /** A refresh that finishes, having begun and not failed. */
  ghost predicate Installs(steps: seq<Step>, l: nat)
    requires l < |steps|
  {
    steps[l].FinishRefresh? && steps[l].refresh in Run(START, steps[..l]).fetching
  }

  /** The validator sets are those that came in last. */
  ghost predicate SetsFrom(s: State, steps: seq<Step>) {
    && (s.sets.None? <==> forall i :: 0 <= i < |steps| ==> !steps[i].InstallSets?)
    && (s.sets.Some? ==>
          exists j :: 0 <= j < |steps|
                      && steps[j] == InstallSets(s.sets.value.jito, s.sets.value.bam, s.sets.value.fetchedAt)
                      && forall l :: j < l < |steps| ==> !steps[l].InstallSets?)
  }

  lemma BegunStays(steps: seq<Step>, step: Step, refresh: nat, start: nat)
    requires BegunAt(steps, refresh, start)
    ensures BegunAt(steps + [step], refresh, start)
  {
    var i :| 0 <= i < |steps| && steps[i] == BeginRefresh(refresh) && Run(START, steps[..i]).slot == Some(start);
    assert (steps + [step])[i] == steps[i] && (steps + [step])[..i] == steps[..i];
  }

  lemma FetchingNext(s: State, steps: seq<Step>, step: Step)
    requires s == Run(START, steps) && forall k :: k in s.fetching ==> BegunAt(steps, k, s.fetching[k])
    ensures var s' := Next(s, step); forall k :: k in s'.fetching ==> BegunAt(steps + [step], k, s'.fetching[k])
  {
    var s' := Next(s, step);
    forall k | k in s'.fetching ensures BegunAt(steps + [step], k, s'.fetching[k]) {
      if k in s.fetching {
        BegunStays(steps, step, k, s.fetching[k]);
      } else {
        assert (steps + [step])[|steps|] == step && (steps + [step])[..|steps|] == steps;
      }
    }
  }

  lemma InstallsStay(steps: seq<Step>, step: Step, l: nat)
    requires l < |steps|
    ensures Installs(steps + [step], l) <==> Installs(steps, l)
  {
    assert (steps + [step])[l] == steps[l] && (steps + [step])[..l] == steps[..l];
  }

  lemma InstalledNow(s: State, steps: seq<Step>, step: Step)
    requires s == Run(START, steps) && ScheduleFrom(s, steps) && step.FinishRefresh? && step.refresh in s.fetching
    ensures var all := steps + [step];
            FinishedAs(all, |steps|, Next(s, step).schedule.value) && Installs(all, |steps|)
  {
    var all, n := steps + [step], |steps|;
    assert all[n] == step && all[..n] == steps;
  }

  lemma FinishedStays(steps: seq<Step>, step: Step, j: nat, schedule: Schedule)
    requires j < |steps| && FinishedAs(steps, j, schedule)
    ensures FinishedAs(steps + [step], j, schedule)
  {
    assert (steps + [step])[j] == steps[j] && (steps + [step])[..j] == steps[..j];
  }

  lemma NotInstalledNow(s: State, steps: seq<Step>, step: Step)
    requires s == Run(START, steps) && !(step.FinishRefresh? && step.refresh in s.fetching)
    ensures Next(s, step).schedule == s.schedule && !Installs(steps + [step], |steps|)
  {
    assert (steps + [step])[|steps|] == step && (steps + [step])[..|steps|] == steps;
  }

  lemma ScheduleNext(s: State, steps: seq<Step>, step: Step)
    requires s == Run(START, steps) && ScheduleFrom(s, steps)
    ensures ScheduleFrom(Next(s, step), steps + [step])
  {
    FetchingNext(s, steps, step);
    forall l | 0 <= l < |steps| ensures Installs(steps + [step], l) <==> Installs(steps, l) {
      InstallsStay(steps, step, l);
    }
    if step.FinishRefresh? && step.refresh in s.fetching {
      InstalledNow(s, steps, step);
    } else {
      NotInstalledNow(s, steps, step);
      if s.schedule.Some? {
        var j :| 0 <= j < |steps| && steps[j].FinishRefresh? && FinishedAs(steps, j, s.schedule.value)
          && forall l :: j < l < |steps| ==> !Installs(steps, l);
        FinishedStays(steps, step, j, s.schedule.value);
      }
    }
  }

  lemma SetsNext(s: State, steps: seq<Step>, step: Step)
    requires SetsFrom(s, steps)
    ensures SetsFrom(Next(s, step), steps + [step])
  {
    var all, n := steps + [step], |steps|;
    assert all[n] == step && forall i :: 0 <= i < n ==> all[i] == steps[i];
    if !step.InstallSets? && s.sets.Some? {
      var j :| 0 <= j < n && steps[j] == InstallSets(s.sets.value.jito, s.sets.value.bam, s.sets.value.fetchedAt)
        && forall l :: j < l < n ==> !steps[l].InstallSets?;
      assert all[j] == steps[j];
    }
  }

  ghost predicate CachesFrom(s: State, steps: seq<Step>) {
    ClockFrom(s, steps) && ScheduleFrom(s, steps) && SetsFrom(s, steps)
  }

  lemma CachesNext(s: State, steps: seq<Step>, step: Step)
    requires s == Run(START, steps) && CachesFrom(s, steps)
    ensures CachesFrom(Next(s, step), steps + [step])
  {
    if Ticks(step) {
      ClockTicks(s, steps, step);
    } else {
      ClockStays(s, steps, step);
    }
    ScheduleNext(s, steps, step);
    SetsNext(s, steps, step);
  }

  /** After any interleaving the clock, the schedule and the sets are what the steps brought in. */
  lemma {:induction false} CachesAreLatest(steps: seq<Step>)
    ensures CachesFrom(Run(START, steps), steps)
  {
    if steps != [] {
      var before, step := steps[..|steps| - 1], steps[|steps| - 1];
      CachesAreLatest(before);
      CachesNext(Run(START, before), before, step);
      assert steps == before + [step];
    }
  }

  // ---------------------------------------------------------------------------
  // A call in two halves
  // ---------------------------------------------------------------------------

  /** What a call says that read the clock at `current` and the caches later. */
  ghost predicate TrueSplit(current: nat, s: State, o: Outcome) {
    s.schedule.Some? && s.sets.Some? && ByGroups(s.schedule.value.start, s.schedule.value.leaders) ==>
      var scan := (r: Option<(nat, int)>) =>
        IsFullScan(FirstProbe(current, s.schedule.value.start), s.schedule.value.start, s.schedule.value.leaders,
                   s.sets.value.jito, r);
      && (o.Open? ==> scan(Some((o.window.nextJitoLeaderSlot, o.window.leader))))
      && (o == Unhealthy(NoJitoLeaderInLookahead) ==> scan(None))
  }

  /** Such a call tells the truth, whatever happens before the clock is read and between the two halves. */
  ghost predicate SplitCallsAreTrue(config: LeaderConfig, current: nat, start: nat) {
    forall before: seq<Step>, between: seq<Step>, now: int ::
      var s := Run(Run(START, before), between);
      Run(START, before).slot == Some(current) && s.schedule.Some? && s.schedule.value.start == start ==>
        TrueSplit(current, s, WindowAt(config, current, s.schedule, s.sets, now))
  }

  /** The clock is read at `current`, moves on to `start`, and a refresh installs the schedule from there. */
  function Overtaken(start: u64): seq<Step> {
    [Ingest(Slot(start, SlotProcessed, 0), 0), BeginRefresh(0), FinishRefresh(0, LateLeaders(start), 0),
     InstallSets({1}, {}, 0)]
  }

  lemma OvertakenRun(current: u64, start: u64)
    requires current <= start
    ensures var s0 := Run(START, [Ingest(Slot(current, SlotProcessed, 0), 0)]);
            var s := Run(s0, Overtaken(start));
            && s0.slot == Some(current)
            && s.schedule == Some(Schedule(start, LateLeaders(start), 0))
            && s.sets == Some(ValidatorSets({1}, {}, 0))
  {
    var first, t := [Ingest(Slot(current, SlotProcessed, 0), 0)], Overtaken(start);
    var s0 := Run(START, first);
    assert s0 == Next(Run(START, first[..0]), first[0]);
    assert t == t[..4] && t[..4][..3] == t[..3] && t[..3][..2] == t[..2] && t[..2][..1] == t[..1] && t[..1][..0] == [];
    var s1 := Next(s0, t[0]);
    assert s1 == Run(s0, t[..1]) && s1.slot == Some(start);
    var s2 := Next(s1, t[1]);
    assert s2 == Run(s0, t[..2]) && s2.fetching == map[0 := start];
    assert Next(s2, t[2]) == Run(s0, t[..3]);
  }

  /** A call split by an install tells the truth, for all interleavings around it, exactly when the schedule
      installed is aligned with the slot read before. Otherwise the call can find no leader although there is
      a led group ahead. */
  lemma SplitCallsAreTrueIffAligned(config: LeaderConfig, current: u64, start: u64)
    requires config.maxScheduleAge >= 0 && config.maxJitoAge >= 0
    ensures SplitCallsAreTrue(config, current, start) <==> Aligned(current, start)
  {
    if Aligned(current, start) {
      forall before, between, now |
        Run(START, before).slot == Some(current) && Run(Run(START, before), between).schedule.Some?
        && Run(Run(START, before), between).schedule.value.start == start
        ensures var s := Run(Run(START, before), between);
                TrueSplit(current, s, WindowAt(config, current, s.schedule, s.sets, now))
      {
        SplitWindowIsTrue(config, current, Run(Run(START, before), between), now);
      }
    } else {
      SplitCallMisses(config, current, start);
      var s := Run(Run(START, [Ingest(Slot(current, SlotProcessed, 0), 0)]), Overtaken(start));
      assert !TrueSplit(current, s, WindowAt(config, current, s.schedule, s.sets, 0));
    }
  }

  lemma SplitWindowIsTrue(config: LeaderConfig, current: nat, s: State, now: int)
    requires s.schedule.Some? && Aligned(current, s.schedule.value.start)
    ensures TrueSplit(current, s, WindowAt(config, current, s.schedule, s.sets, now))
  {
    var schedule := s.schedule.value;
    if s.sets.Some? && ByGroups(schedule.start, schedule.leaders) {
      AlignedSearch(FirstProbe(current, schedule.start), schedule.start, schedule.leaders, s.sets.value.jito);
    }
  }

  /** The interleaving, from the start: the call finds no leader in the lookahead, and a full scan finds one. */
  lemma SplitCallMisses(config: LeaderConfig, current: u64, start: u64)
    requires config.maxScheduleAge >= 0 && config.maxJitoAge >= 0 && !Aligned(current, start)
    ensures var s0 := Run(START, [Ingest(Slot(current, SlotProcessed, 0), 0)]);
            var s := Run(s0, Overtaken(start));
            && s0.slot == Some(current) && s.schedule.Some? && s.schedule.value.start == start
            && WindowAt(config, current, s.schedule, s.sets, 0) == Unhealthy(NoJitoLeaderInLookahead)
            && !TrueSplit(current, s, Unhealthy(NoJitoLeaderInLookahead))
  {
    OutOfPhase(current, start);
    OvertakenRun(current, start);
  }

  // ---------------------------------------------------------------------------
  // Waiting for a window
  // ---------------------------------------------------------------------------

  /** One check made while waiting, and what happens until the next one. */
  datatype Turn = Turn(now: int, meanwhile: seq<Step>)

  /** The wait is over: the window is close enough, or there is an error to report. */
  predicate Settles(config: LeaderConfig, o: Outcome) {
    o.Open? ==> 1 <= o.window.slotsUntil <= config.thresholdSlots
  }

  /** The state at the i-th check. */
  function AtTurn(s: State, turns: seq<Turn>, i: nat): State
    requires i <= |turns|
  {
    if i == 0 then s else Run(AtTurn(s, turns, i - 1), turns[i - 1].meanwhile)
  }

  function Seen(config: LeaderConfig, s: State, turns: seq<Turn>, i: nat): Outcome
    requires i < |turns|
  {
    Window(config, AtTurn(s, turns, i), turns[i].now)
  }

  class LeaderTracker {
    const config: LeaderConfig
    var slot: Option<nat>
    var updatedAt: int
    var schedule: Option<Schedule>
    var sets: Option<ValidatorSets>
    var fetching: map<nat, nat>

    ghost function View(): State
      reads this
    {
      State(slot, updatedAt, schedule, sets, fetching)
    }

    ghost predicate Valid()
      reads this
    {
      StartsBehind(View())
    }

    constructor (config: LeaderConfig)
      ensures Valid() && this.config == config && View() == START
    {
      this.config := config;
      slot, updatedAt, schedule, sets, fetching := None, 0, None, None, map[];
    }

    /** Only Processed slots move the clock, and never backwards; any of them counts as a sign of life. */
    method IngestEvent(event: StreamEvent, now: int)
      requires Valid()
      modifies this`slot, this`updatedAt
      ensures Valid() && View() == Next(old(View()), Ingest(event, now))
      ensures old(slot).Some? ==> slot.Some? && old(slot).value <= slot.value
    {
      StartsStayBehind(View(), Ingest(event, now));
      match event
      case TxStatus(_, _, _, _) =>
      case Slot(n, status, _) =>
        if status.SlotProcessed? {
          slot := Some(if slot.Some? then Max(slot.value, n) else n);
          updatedAt := now;
        }
    }

    /** The first half of `refresh_schedule`: read the clock and ask for the leaders from there on. */
    method BeginScheduleRefresh(refresh: nat) returns (start: Option<nat>)
      requires Valid() && refresh !in fetching
      modifies this`fetching
      ensures Valid() && View() == Next(old(View()), BeginRefresh(refresh)) && start == slot
    {
      StartsStayBehind(View(), BeginRefresh(refresh));
      start := slot;
      if start.Some? {
        fetching := fetching[refresh := start.value];
      }
    }

    /** The second half, once the leaders have come back: the schedule begins where the clock was read. */
    method FinishScheduleRefresh(refresh: nat, leaders: seq<int>, now: int)
      requires Valid() && refresh in fetching
      modifies this`schedule, this`fetching
      ensures Valid() && View() == Next(old(View()), FinishRefresh(refresh, leaders, now))
      ensures schedule.Some? && slot.Some? && schedule.value.start == old(fetching)[refresh] <= slot.value
    {
      StartsStayBehind(View(), FinishRefresh(refresh, leaders, now));
      schedule := Some(Schedule(fetching[refresh], leaders, now));
      fetching := fetching - {refresh};
    }

    method Perform(step: Step)
      requires Valid()
      modifies this
      ensures Valid() && View() == Next(old(View()), step)
    {
      StartsStayBehind(View(), step);
      match step
      case Ingest(event, now) => IngestEvent(event, now);
      case BeginRefresh(k) =>
        if k !in fetching {
          var _ := BeginScheduleRefresh(k);
        }
      case FinishRefresh(k, leaders, now) =>
        if k in fetching {
          FinishScheduleRefresh(k, leaders, now);
        }
      case FailRefresh(k) => fetching := fetching - {k};
      case InstallSets(jito, bam, now) => sets := Some(ValidatorSets(jito, bam, now));
    }

    method PerformAll(steps: seq<Step>)
      requires Valid()
      modifies this
      ensures Valid() && View() == Run(old(View()), steps)
    {
      for i := 0 to |steps|
        invariant Valid() && View() == Run(old(View()), steps[..i])
      {
        Perform(steps[i]);
        assert steps[..i + 1][..i] == steps[..i];
      }
      assert steps[..|steps|] == steps;
    }

    /** `current_window` as written, with nothing happening in the middle of it. */
    method CurrentWindow(now: int) returns (o: Outcome)
      requires Valid()
      ensures o == Window(config, View(), now) && TrueWindow(View(), o)
    {
      WindowIsTrue(config, View(), now);
      if slot.None? {
        return Unhealthy(NoClock);
      }
      if now - updatedAt > config.maxClockStaleness {
        return Unhealthy(ClockStale);
      }
      var current := slot.value;
      if schedule.None? {
        return Unhealthy(NoSchedule);
      }
      if now - schedule.value.fetchedAt > config.maxScheduleAge {
        return Unhealthy(ScheduleStale);
      }
      if current >= schedule.value.start + |schedule.value.leaders| {
        return Unhealthy(ScheduleExhausted);
      }
      if sets.None? {
        return Unhealthy(NoJitoData);
      }
      if now - sets.value.fetchedAt > config.maxJitoAge {
        return Unhealthy(JitoStale);
      }
      var r := NextJitoLeader(current, schedule.value.start, schedule.value.leaders, sets.value.jito);
      if r.None? {
        return Unhealthy(NoJitoLeaderInLookahead);
      }
      WindowIsAhead(config, current, schedule, sets, now);
      var (next, leader) := r.value;
      o := Open(LeaderWindow(current, next, next - current, leader, leader in sets.value.bam));
    }

    /** `wait_for_window` as written: check, and check again whenever a tick or a quarter of a second has
        passed. It returns what the first check that settles the wait has seen, a window close enough or an
        error, and every check before that one saw the next led group further ahead than the threshold. */
    method WaitForWindow(turns: seq<Turn>) returns (o: Option<Outcome>)
      requires Valid()
      modifies this
      ensures Valid()
      ensures o.None? ==> forall j: nat :: j < |turns| ==> !Settles(config, Seen(config, old(View()), turns, j))
      ensures o.Some? ==> TrueWindow(View(), o.value) && Settles(config, o.value) && exists k: nat ::
        && k < |turns| && o.value == Seen(config, old(View()), turns, k) && View() == AtTurn(old(View()), turns, k)
        && forall j: nat :: j < k ==> !Settles(config, Seen(config, old(View()), turns, j))
    {
      var i := 0;
      while i < |turns|
        invariant Valid() && i <= |turns| && View() == AtTurn(old(View()), turns, i)
        invariant forall j: nat :: j < i ==> !Settles(config, Seen(config, old(View()), turns, j))
      {
        var seen := CurrentWindow(turns[i].now);
        if Settles(config, seen) {
          return Some(seen);
        }
        PerformAll(turns[i].meanwhile);
        i := i + 1;
      }
      o := None;
    }
  }

  /** What an unsettled check means: the tracker is healthy, and the next led group is too far ahead. */
  lemma UnsettledIsFar(config: LeaderConfig, s: State, now: int)
    requires StartsBehind(s)
    ensures !Settles(config, Window(config, s, now)) <==>
            var o := Window(config, s, now);
            o.Open? && TrueWindow(s, o) && o.window.nextJitoLeaderSlot > o.window.currentSlot + config.thresholdSlots
  {
    WindowIsTrue(config, s, now);
  }
}
