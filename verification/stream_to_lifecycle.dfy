/** The stream and the lifecycle tracker together: what backpressure drops never matters in the end. */
module StreamToLifecycle {
  import opened Wrappers
  import opened Numbers
  import opened StreamEvents
  import opened LifecycleRows
  import opened LifecycleModel
  import opened LifecyclePasses
  import opened LifecycleLossy
  import opened LifecycleLateErrors
  import Stream

  /** The stream side acts, its consumer feeding each event it takes to the tracker, or the rest of the
      program calls the tracker. */
  datatype Turn = OnStream(action: Stream.Action) | OnTracker(act: Act)

  /** An event decoded but not yet seen by the tracker: in the channel, or dropped in front of it. */
  datatype Item = Kept(event: StreamEvent) | Dropped(event: StreamEvent)

  /** `lossy` is what the tracker has been through. `full` is the same with dropped events put back, each
      before the event that was decoded next, and with reconcile passes of its own; `ahead` is what comes
      next in it. `refused` is the event that met a closed channel. Events of earlier processes are in
      `earlier`, those that died with their process in `died`. */
  datatype Joint = Joint(
    stream: Stream.State,
    ahead: seq<Item>,
    refused: seq<StreamEvent>,
    full: seq<Act>,
    lossy: seq<Act>,
    earlier: multiset<StreamEvent>,
    died: multiset<StreamEvent>)

  function Start(capacity: nat): Joint {
    Joint(Stream.Start(capacity), [], [], [], [], multiset{}, multiset{})
  }

  function AllEvents(items: seq<Item>): seq<StreamEvent> {
    if items == [] then [] else [items[0].event] + AllEvents(items[1..])
  }

  function IfKept(item: Item): seq<StreamEvent> {
    if item.Kept? then [item.event] else []
  }

  function IfDropped(item: Item): seq<StreamEvent> {
    if item.Dropped? then [item.event] else []
  }

  function KeptEvents(items: seq<Item>): seq<StreamEvent> {
    if items == [] then [] else IfKept(items[0]) + KeptEvents(items[1..])
  }

  function DroppedEvents(items: seq<Item>): seq<StreamEvent> {
    if items == [] then [] else IfDropped(items[0]) + DroppedEvents(items[1..])
  }

  function Fed(events: seq<StreamEvent>): (acts: seq<Act>)
    ensures |acts| == |events| && forall i :: 0 <= i < |events| ==> acts[i] == Do(Event(events[i]))
  {
    if events == [] then [] else [Do(Event(events[0]))] + Fed(events[1..])
  }

  predicate IsCrash(a: Act) {
    a.Do? && a.op.Crash?
  }

  function EventOf(a: Act): seq<StreamEvent> {
    if a.Do? && a.op.Event? then [a.op.event] else []
  }

  /** The events that reach a tracker. */
  function EventsIn(acts: seq<Act>): seq<StreamEvent> {
    if acts == [] then [] else EventOf(acts[0]) + EventsIn(acts[1..])
  }

  predicate Crashes(acts: seq<Act>) {
    exists i :: 0 <= i < |acts| && IsCrash(acts[i])
  }

  /** Those since the last crash. */
  function EventsNow(acts: seq<Act>): seq<StreamEvent> {
    if Crashes(acts) then EventsNow(acts[1..]) else EventsIn(acts)
  }

  /** And those before it. */
  function EventsBefore(acts: seq<Act>): seq<StreamEvent> {
    if Crashes(acts) then EventOf(acts[0]) + EventsBefore(acts[1..]) else []
  }

  /** How many items go by when the consumer takes an event: the dropped ones before it, and its own. */
  function UpToKept(items: seq<Item>): (n: nat)
    ensures n <= |items|
  {
    if items == [] then 0 else if items[0].Kept? then 1 else 1 + UpToKept(items[1..])
  }

  /** What an action of the stream side adds: an event that finds room, or a slot update that does not. */
  function NewItems(s: Stream.State, action: Stream.Action): seq<Item> {
    match action
    case Incoming(update) =>
      if s.stopped || s.waiting.Some? || update.Ignored? || !s.consumerOpen then []
      else if |s.queue| < s.capacity then [Kept(update.event)]
      else if update.event.Slot? then [Dropped(update.event)]
      else []
    case Resume =>
      if s.stopped || s.waiting.None? || !s.consumerOpen || |s.queue| >= s.capacity then [] else [Kept(s.waiting.value)]
    case _ => []
  }

  /** An event decoded when the consumer is gone: it ends the forwarding task. */
  function Refused(s: Stream.State, action: Stream.Action): seq<StreamEvent> {
    if action.Incoming? && action.update.Decoded? && !s.stopped && s.waiting.None? && !s.consumerOpen
    then [action.update.event] else []
  }

  /** The stream side does something else than take an event out of the channel. */
  function AfterAction(j: Joint, action: Stream.Action): Joint {
    j.(stream := Stream.Next(j.stream, action), ahead := j.ahead + NewItems(j.stream, action),
       refused := j.refused + Refused(j.stream, action))
  }

  /** The consumer takes an event, if there is one, and hands it to the tracker. */
  function AfterTake(j: Joint): Joint {
    if j.stream.queue == [] || !j.stream.consumerOpen then j
    else
      var n := UpToKept(j.ahead);
      j.(stream := Stream.Next(j.stream, Stream.Take), ahead := j.ahead[n..],
         full := j.full + Fed(AllEvents(j.ahead[..n])), lossy := j.lossy + [Do(Event(j.stream.queue[0]))])
  }

  /** The process ends and a new one starts: the tracker is rebuilt from its table, and the channel, with
      the send waiting for room in it, is gone. */
  function AfterCrash(j: Joint): Joint {
    Joint(Stream.Start(j.stream.capacity), [], [],
          j.full + Fed(DroppedEvents(j.ahead)) + [Do(Crash)], j.lossy + [Do(Crash)],
          j.earlier + multiset(j.stream.decoded),
          j.died + (multiset(j.stream.queue) + multiset(AsSeq(j.stream.waiting) + j.refused)))
  }

  /** Sweeps are left out, events come over the stream, and statuses as the answers to a pass. */
  predicate Outside(a: Act) {
    Plain(a) && (a.Do? ==> !a.op.Event? && !a.op.Crash?)
  }

  function Next(j: Joint, turn: Turn): Joint {
    match turn
    case OnStream(action) => if action.Take? then AfterTake(j) else AfterAction(j, action)
    case OnTracker(a) =>
      if IsCrash(a) then AfterCrash(j)
      else if Outside(a) then j.(full := j.full + [a], lossy := j.lossy + [a])
      else j
  }

  function Run(j: Joint, turns: seq<Turn>): Joint {
    if turns == [] then j else Next(Run(j, turns[..|turns| - 1]), turns[|turns| - 1])
  }

  /** The full run up to now: with the updates dropped since the last event taken as well. */
  function Seen(j: Joint): seq<Act> {
    j.full + Fed(DroppedEvents(j.ahead))
  }

  /** What the process at work has decoded, in order. */
  ghost predicate ConservedNow(j: Joint) {
    && KeptEvents(j.ahead) == j.stream.queue
    && EventsNow(j.lossy) == j.stream.received
    && EventsNow(j.full) + AllEvents(j.ahead) + (AsSeq(j.stream.waiting) + j.refused) == j.stream.decoded
  }

  /** What earlier processes have decoded: nothing is missing but what died with them. */
  ghost predicate ConservedBefore(j: Joint) {
    multiset(EventsBefore(j.full)) + j.died == j.earlier
  }

  ghost predicate DropsSlots(items: seq<Item>) {
    forall item :: item in items && item.Dropped? ==> item.event.Slot?
  }

  ghost predicate Sound(j: Joint) {
    && ConservedNow(j) && ConservedBefore(j)
    && DropsSlots(j.ahead) && SubRun(j.full, j.lossy) && AllPlain(j.full)
    && (j.refused != [] ==> j.stream.stopped)
  }

  // ---------------------------------------------------------------------------
  // Parts of sequences
  // ---------------------------------------------------------------------------

  lemma {:induction false} ItemsConcat(a: seq<Item>, b: seq<Item>)
    ensures AllEvents(a + b) == AllEvents(a) + AllEvents(b)
    ensures KeptEvents(a + b) == KeptEvents(a) + KeptEvents(b)
  {
    if a == [] {
      assert a + b == b;
    } else {
      assert (a + b)[1..] == a[1..] + b;
      ItemsConcat(a[1..], b);
      Regroup([a[0].event], AllEvents(a[1..]), AllEvents(b));
      Regroup(IfKept(a[0]), KeptEvents(a[1..]), KeptEvents(b));
    }
  }

  lemma {:induction false} KeptAndDropped(items: seq<Item>)
    ensures multiset(AllEvents(items)) == multiset(KeptEvents(items)) + multiset(DroppedEvents(items))
  {
    if items != [] {
      KeptAndDropped(items[1..]);
    }
  }

  lemma {:induction false} OnlyDropped(items: seq<Item>)
    requires KeptEvents(items) == []
    ensures AllEvents(items) == DroppedEvents(items)
  {
    if items != [] {
      OnlyDropped(items[1..]);
    }
  }

  lemma {:induction false} DroppedAreSlots(items: seq<Item>)
    requires DropsSlots(items)
    ensures forall e :: e in DroppedEvents(items) ==> e.Slot?
  {
    if items != [] {
      assert items[0] in items;
      DroppedAreSlots(items[1..]);
    }
  }

  lemma {:induction false} EventsInConcat(a: seq<Act>, b: seq<Act>)
    ensures EventsIn(a + b) == EventsIn(a) + EventsIn(b)
  {
    if a == [] {
      assert a + b == b;
    } else {
      assert (a + b)[1..] == a[1..] + b;
      EventsInConcat(a[1..], b);
      Regroup(EventOf(a[0]), EventsIn(a[1..]), EventsIn(b));
    }
  }

  lemma CrashesConcat(a: seq<Act>, b: seq<Act>)
    ensures Crashes(a + b) == (Crashes(a) || Crashes(b))
  {
    forall i | 0 <= i < |a| ensures a[i] == (a + b)[i] {
    }
    forall i | 0 <= i < |b| ensures b[i] == (a + b)[|a| + i] {
    }
  }

  lemma {:induction false} CrashlessConcat(a: seq<Act>, b: seq<Act>)
    requires !Crashes(b)
    ensures EventsNow(a + b) == EventsNow(a) + EventsIn(b)
    ensures EventsBefore(a + b) == EventsBefore(a)
  {
    CrashesConcat(a, b);
    if Crashes(a) {
      assert (a + b)[1..] == a[1..] + b;
      CrashlessConcat(a[1..], b);
    } else {
      EventsInConcat(a, b);
    }
  }

  lemma {:induction false} CrashConcat(acts: seq<Act>)
    ensures EventsNow(acts + [Do(Crash)]) == []
    ensures EventsBefore(acts + [Do(Crash)]) == EventsIn(acts)
  {
    assert IsCrash((acts + [Do(Crash)])[|acts|]);
    if acts == [] {
      assert (acts + [Do(Crash)])[1..] == [];
    } else {
      assert (acts + [Do(Crash)])[1..] == acts[1..] + [Do(Crash)];
      CrashConcat(acts[1..]);
    }
  }

  lemma {:induction false} BeforeAndNow(acts: seq<Act>)
    ensures EventsIn(acts) == EventsBefore(acts) + EventsNow(acts)
  {
    if Crashes(acts) {
      BeforeAndNow(acts[1..]);
      Regroup(EventOf(acts[0]), EventsBefore(acts[1..]), EventsNow(acts[1..]));
    }
  }

  lemma {:induction false} EventsInFed(events: seq<StreamEvent>)
    ensures EventsIn(Fed(events)) == events && !Crashes(Fed(events))
  {
    if events != [] {
      EventsInFed(events[1..]);
      assert Fed(events)[1..] == Fed(events[1..]);
    }
  }

  lemma EventsFed(acts: seq<Act>, events: seq<StreamEvent>)
    ensures EventsNow(acts + Fed(events)) == EventsNow(acts) + events
    ensures EventsBefore(acts + Fed(events)) == EventsBefore(acts)
  {
    EventsInFed(events);
    CrashlessConcat(acts, Fed(events));
  }

  lemma EventsSnoc(acts: seq<Act>, a: Act)
    requires !IsCrash(a)
    ensures EventsNow(acts + [a]) == EventsNow(acts) + EventOf(a)
    ensures EventsBefore(acts + [a]) == EventsBefore(acts)
  {
    assert EventsIn([a]) == EventOf(a) + EventsIn([a][1..]);
    CrashlessConcat(acts, [a]);
  }

  lemma {:induction false} SubRunConcat(a: seq<Act>, b: seq<Act>, c: seq<Act>, d: seq<Act>)
    requires SubRun(a, b) && SubRun(c, d)
    ensures SubRun(a + c, b + d)
  {
    if a == [] {
      assert a + c == c && b + d == d;
    } else {
      assert (a + c)[1..] == a[1..] + c;
      if b != [] && a[0] == b[0] && SubRun(a[1..], b[1..]) {
        SubRunConcat(a[1..], b[1..], c, d);
        assert (b + d)[1..] == b[1..] + d;
      } else {
        SubRunConcat(a[1..], b, c, d);
      }
    }
  }

  lemma SubRunOne(a: Act)
    ensures SubRun([a], [a])
  {
    assert [a][1..] == [];
  }

  lemma {:induction false} SlotsMayGo(events: seq<StreamEvent>)
    requires forall e :: e in events ==> e.Slot?
    ensures SubRun(Fed(events), [])
  {
    if events != [] {
      SlotsMayGo(events[1..]);
      assert Fed(events)[1..] == Fed(events[1..]);
    }
  }

  /** Up to the first event in the channel, the tracker misses nothing but slot updates. */
  lemma {:induction false} TakenItems(items: seq<Item>)
    requires KeptEvents(items) != [] && DropsSlots(items)
    ensures var n := UpToKept(items);
            && KeptEvents(items[n..]) == KeptEvents(items)[1..]
            && SubRun(Fed(AllEvents(items[..n])), [Do(Event(KeptEvents(items)[0]))])
  {
    var n := UpToKept(items);
    var taken := items[..n];
    assert taken[0] == items[0] && taken[1..] == items[1..][..n - 1];
    var acts := Fed(AllEvents(taken));
    assert acts[0] == Do(Event(items[0].event)) && acts[1..] == Fed(AllEvents(taken[1..]));
    if items[0].Kept? {
      assert [Do(Event(items[0].event))][1..] == [];
    } else {
      assert items[0] in items;
      TakenItems(items[1..]);
      assert items[n..] == items[1..][n - 1..];
    }
  }

  lemma SeenIsComparable(j: Joint)
    requires DropsSlots(j.ahead) && SubRun(j.full, j.lossy) && AllPlain(j.full)
    ensures SubRun(Seen(j), j.lossy) && AllPlain(Seen(j))
  {
    DroppedAreSlots(j.ahead);
    SlotsMayGo(DroppedEvents(j.ahead));
    SubRunConcat(j.full, j.lossy, Fed(DroppedEvents(j.ahead)), []);
    assert j.lossy + [] == j.lossy;
  }

  // ---------------------------------------------------------------------------
  // Every step is sound
  // ---------------------------------------------------------------------------

  /** What the full run gains when an event is taken is what was ahead of it. */
  lemma TakenMovesOn(full: seq<Act>, items: seq<Item>, n: nat)
    requires n <= |items|
    ensures var full' := full + Fed(AllEvents(items[..n]));
            && EventsNow(full') + AllEvents(items[n..]) == EventsNow(full) + AllEvents(items)
            && EventsBefore(full') == EventsBefore(full)
  {
    assert items == items[..n] + items[n..];
    ItemsConcat(items[..n], items[n..]);
    EventsFed(full, AllEvents(items[..n]));
    Regroup(EventsNow(full), AllEvents(items[..n]), AllEvents(items[n..]));
  }

  lemma TakeConserves(j: Joint)
    requires Sound(j) && j.stream.queue != [] && j.stream.consumerOpen
    ensures ConservedNow(AfterTake(j)) && ConservedBefore(AfterTake(j))
  {
    TakenItems(j.ahead);
    TakenMovesOn(j.full, j.ahead, UpToKept(j.ahead));
    EventsSnoc(j.lossy, Do(Event(j.stream.queue[0])));
  }

  lemma TakeIsSound(j: Joint)
    requires Sound(j)
    ensures Sound(AfterTake(j))
  {
    if j.stream.queue != [] && j.stream.consumerOpen {
      TakeConserves(j);
      TakenItems(j.ahead);
      SubRunConcat(j.full, j.lossy, Fed(AllEvents(j.ahead[..UpToKept(j.ahead)])), [Do(Event(j.stream.queue[0]))]);
    }
  }

  lemma OneItem(item: Item)
    ensures AllEvents([item]) == [item.event] && KeptEvents([item]) == IfKept(item)
  {
    assert [item][1..] == [];
  }

  /** An action other than the consumer's: what it decodes is added or waits or is refused, and what
      waited is added. */
  lemma ActionAdds(s: Stream.State, action: Stream.Action, refused: seq<StreamEvent>)
    returns (decoded: seq<StreamEvent>)
    requires !action.Take? && (refused != [] ==> s.stopped)
    ensures var s', items := Stream.Next(s, action), NewItems(s, action);
            && s'.received == s.received && s'.queue == s.queue + KeptEvents(items)
            && s'.decoded == s.decoded + decoded
            && AllEvents(items) + (AsSeq(s'.waiting) + (refused + Refused(s, action))) ==
               AsSeq(s.waiting) + refused + decoded
  {
    decoded := if action.Incoming? && action.update.Decoded? && !s.stopped && s.waiting.None?
      then [action.update.event] else [];
    var items := NewItems(s, action);
    if items != [] {
      OneItem(items[0]);
      assert items == [items[0]];
    }
  }

  /** Sequences are put together in two ways. */
  lemma Shift(all: seq<StreamEvent>, ahead: seq<StreamEvent>, items: seq<StreamEvent>, left: seq<StreamEvent>,
              left': seq<StreamEvent>, decoded: seq<StreamEvent>)
    requires items + left' == left + decoded
    ensures all + (ahead + items) + left' == all + ahead + left + decoded
  {
    Regroup(all, ahead, items);
    Regroup(all + ahead, items, left');
    Regroup(all + ahead, left, decoded);
  }

  lemma ActionConserves(j: Joint, action: Stream.Action)
    requires Sound(j) && !action.Take?
    ensures ConservedNow(AfterAction(j, action)) && ConservedBefore(AfterAction(j, action))
  {
    var j' := AfterAction(j, action);
    var items := NewItems(j.stream, action);
    var decoded := ActionAdds(j.stream, action, j.refused);
    ItemsConcat(j.ahead, items);
    Shift(EventsNow(j.full), AllEvents(j.ahead), AllEvents(items), AsSeq(j.stream.waiting) + j.refused,
          AsSeq(j'.stream.waiting) + j'.refused, decoded);
  }

  lemma ItemsDropSlots(s: Stream.State, action: Stream.Action, ahead: seq<Item>)
    requires DropsSlots(ahead)
    ensures DropsSlots(ahead + NewItems(s, action))
  {
    assert forall item :: item in NewItems(s, action) && item.Dropped? ==> item.event.Slot?;
  }

  lemma RefusalStops(s: Stream.State, action: Stream.Action, refused: seq<StreamEvent>)
    requires refused != [] ==> s.stopped
    ensures refused + Refused(s, action) != [] ==> Stream.Next(s, action).stopped
  {
  }

  lemma ActionIsSound(j: Joint, action: Stream.Action)
    requires Sound(j) && !action.Take?
    ensures Sound(AfterAction(j, action))
  {
    ActionConserves(j, action);
    ItemsDropSlots(j.stream, action, j.ahead);
    RefusalStops(j.stream, action, j.refused);
  }

  lemma TrackerConserves(j: Joint, a: Act)
    requires Sound(j) && Outside(a)
    ensures var j' := j.(full := j.full + [a], lossy := j.lossy + [a]); ConservedNow(j') && ConservedBefore(j')
  {
    EventsSnoc(j.full, a);
    EventsSnoc(j.lossy, a);
    assert EventsNow(j.full) + [] == EventsNow(j.full) && EventsNow(j.lossy) + [] == EventsNow(j.lossy);
  }

  lemma TrackerIsSound(j: Joint, a: Act)
    requires Sound(j) && Outside(a)
    ensures Sound(j.(full := j.full + [a], lossy := j.lossy + [a]))
  {
    TrackerConserves(j, a);
    SubRunOne(a);
    SubRunConcat(j.full, j.lossy, [a], [a]);
  }

  /** A crash moves what was decoded to the earlier processes, and what was under way to the dead. */
  lemma Balance(before: seq<StreamEvent>, now: seq<StreamEvent>, ahead: seq<StreamEvent>, kept: seq<StreamEvent>,
                dropped: seq<StreamEvent>, left: seq<StreamEvent>, earlier: multiset<StreamEvent>,
                died: multiset<StreamEvent>)
    requires multiset(ahead) == multiset(kept) + multiset(dropped) && multiset(before) + died == earlier
    ensures multiset(before + (now + dropped)) + (died + (multiset(kept) + multiset(left))) ==
            earlier + multiset(now + ahead + left)
  {
  }

  lemma CrashedRun(acts: seq<Act>, events: seq<StreamEvent>)
    ensures EventsNow(acts + Fed(events) + [Do(Crash)]) == []
    ensures EventsBefore(acts + Fed(events) + [Do(Crash)]) == EventsBefore(acts) + (EventsNow(acts) + events)
  {
    EventsFed(acts, events);
    BeforeAndNow(acts + Fed(events));
    CrashConcat(acts + Fed(events));
  }

  lemma CrashConserves(j: Joint)
    requires Sound(j)
    ensures ConservedNow(AfterCrash(j)) && ConservedBefore(AfterCrash(j))
  {
    var dropped, left := DroppedEvents(j.ahead), AsSeq(j.stream.waiting) + j.refused;
    CrashedRun(j.full, dropped);
    CrashConcat(j.lossy);
    KeptAndDropped(j.ahead);
    Balance(EventsBefore(j.full), EventsNow(j.full), AllEvents(j.ahead), j.stream.queue, dropped, left, j.earlier,
            j.died);
  }

  lemma CrashIsSound(j: Joint)
    requires Sound(j)
    ensures Sound(AfterCrash(j))
  {
    CrashConserves(j);
    SeenIsComparable(j);
    SubRunOne(Do(Crash));
    SubRunConcat(Seen(j), j.lossy, [Do(Crash)], [Do(Crash)]);
  }

  lemma NextIsSound(j: Joint, turn: Turn)
    requires Sound(j)
    ensures Sound(Next(j, turn))
  {
    match turn
    case OnTracker(a) =>
      if IsCrash(a) {
        CrashIsSound(j);
      } else if Outside(a) {
        TrackerIsSound(j, a);
      }
    case OnStream(action) =>
      if action.Take? {
        TakeIsSound(j);
      } else {
        ActionIsSound(j, action);
      }
  }

  lemma {:induction false} RunIsSound(capacity: nat, turns: seq<Turn>)
    ensures Sound(Run(Start(capacity), turns))
  {
    if turns != [] {
      RunIsSound(capacity, turns[..|turns| - 1]);
      NextIsSound(Run(Start(capacity), turns[..|turns| - 1]), turns[|turns| - 1]);
    }
  }

  /** What the stream side has done since the last crash. */
  function StreamActions(turns: seq<Turn>): seq<Stream.Action> {
    if turns == [] then []
    else
      var last := turns[|turns| - 1];
      if last.OnTracker? && IsCrash(last.act) then []
      else StreamActions(turns[..|turns| - 1]) + if last.OnStream? then [last.action] else []
  }

  lemma StreamNext(j: Joint, turn: Turn)
    ensures Next(j, turn).stream ==
            if turn.OnStream? then Stream.Next(j.stream, turn.action)
            else if IsCrash(turn.act) then Stream.Start(j.stream.capacity)
            else j.stream
  {
  }

  lemma StreamSnoc(s: Stream.State, actions: seq<Stream.Action>, action: Stream.Action)
    ensures Stream.Run(s, actions + [action]) == Stream.Next(Stream.Run(s, actions), action)
  {
    assert (actions + [action])[..|actions|] == actions;
  }

  ghost predicate StreamIs(capacity: nat, s: Stream.State, turns: seq<Turn>) {
    s == Stream.Run(Stream.Start(capacity), StreamActions(turns)) && s.capacity == capacity
  }

  lemma StreamStays(capacity: nat, j: Joint, turns: seq<Turn>)
    requires turns != [] && StreamIs(capacity, j.stream, turns[..|turns| - 1])
    ensures StreamIs(capacity, Next(j, turns[|turns| - 1]).stream, turns)
  {
    var before, last := turns[..|turns| - 1], turns[|turns| - 1];
    StreamNext(j, last);
    if last.OnStream? {
      StreamSnoc(Stream.Start(capacity), StreamActions(before), last.action);
    } else if !IsCrash(last.act) {
      assert StreamActions(turns) == StreamActions(before);
    }
  }

  lemma {:induction false} StreamIsStream(capacity: nat, turns: seq<Turn>)
    ensures StreamIs(capacity, Run(Start(capacity), turns).stream, turns)
  {
    if turns != [] {
      var before := turns[..|turns| - 1];
      StreamIsStream(capacity, before);
      StreamStays(capacity, Run(Start(capacity), before), turns);
    }
  }

  // ---------------------------------------------------------------------------
  // The tracker at the end of the stream
  // ---------------------------------------------------------------------------

  /** Slot updates divide no runs. */
  lemma {:induction false} SlotsAreTimely(cfg: Config, f: World, b: World, slots: seq<Act>)
    requires forall i :: 0 <= i < |slots| ==> IsSlot(slots[i])
    ensures TimelyRun(cfg, f, b, slots)
    decreases |slots|
  {
    if slots != [] {
      assert IsSlot(slots[0]);
      SlotsAreTimely(cfg, Proceed(cfg, f, slots[0]), BareStep(cfg, b, slots[0]), slots[1..]);
    }
  }

  lemma {:induction false} TimelyWithSlots(cfg: Config, f: World, b: World, acts: seq<Act>, slots: seq<Act>)
    requires TimelyRun(cfg, f, b, acts) && forall i :: 0 <= i < |slots| ==> IsSlot(slots[i])
    ensures TimelyRun(cfg, f, b, acts + slots)
    decreases |acts|
  {
    if acts == [] {
      assert acts + slots == slots;
      SlotsAreTimely(cfg, f, b, slots);
    } else {
      assert (acts + slots)[0] == acts[0] && (acts + slots)[1..] == acts[1..] + slots;
      TimelyWithSlots(cfg, Proceed(cfg, f, acts[0]), BareStep(cfg, b, acts[0]), acts[1..], slots);
    }
  }

  /** One run is never ahead of another, and level with it after one Finalized update. */
  ghost predicate OnlyBehind(cfg: Config, full: seq<Act>, lossy: seq<Act>, tick: Op) {
    var f, l := ProceedAll(cfg, NEW_WORLD, full).model, ProceedAll(cfg, NEW_WORLD, lossy).model;
    var f', l' := Step(cfg, f, tick).table, Step(cfg, l, tick).table;
    && NeverAhead(f, l)
    && f'.Keys == l'.Keys && forall id :: id in f' ==> f'[id].status == l'[id].status
  }

  lemma ComparableIsBehind(cfg: Config, full: seq<Act>, lossy: seq<Act>, n: u64, at: int)
    requires Comparable(cfg, full, lossy) && AdvancesUpTo(full, n)
    ensures OnlyBehind(cfg, full, lossy, Event(Slot(n, SlotFinalized, at)))
  {
    RunsStayClose(cfg, NEW_WORLD, NEW_WORLD, NEW_WORLD, full, lossy, n);
    var f, l := ProceedAll(cfg, NEW_WORLD, full).model, ProceedAll(cfg, NEW_WORLD, lossy).model;
    var tick := Event(Slot(n, SlotFinalized, at));
    CloseRunsLevel(cfg, f, l, n, at, at, 0);
    forall id | id in Step(cfg, f, tick).table
      ensures Step(cfg, f, tick).table[id].status == Step(cfg, l, tick).table[id].status
    {
      CloseRunsLevel(cfg, f, l, n, at, at, id);
    }
  }

  /** Bundles are submitted, rejected and reconciled, and the process ends and starts again with an empty
      channel, while the stream runs into the tracker through a channel of any capacity, at any speed. At
      any point the tracker is never ahead of one that has also seen the slot updates dropped before the
      last event it took, nor of one that has seen every slot update dropped so far, and one Finalized
      update at or above all earlier ones brings every bundle to the same stage in both.

      Those other runs have missed nothing that the process at work has decoded but what is still in the
      channel, waits for room in it or found it closed; of what earlier processes have decoded they have
      missed only what was there when these ended, and the tracker misses that too. */
  lemma BackpressureIsHarmless(cfg: Config, capacity: nat, turns: seq<Turn>, n: u64, at: int)
    requires var j := Run(Start(capacity), turns);
             TimelyRun(cfg, NEW_WORLD, NEW_WORLD, j.full) && AdvancesUpTo(Seen(j), n)
    ensures var j := Run(Start(capacity), turns);
            && j.stream == Stream.Run(Stream.Start(capacity), StreamActions(turns))
            && OnlyBehind(cfg, j.full, j.lossy, Event(Slot(n, SlotFinalized, at)))
            && OnlyBehind(cfg, Seen(j), j.lossy, Event(Slot(n, SlotFinalized, at)))
            && ConservedNow(j) && ConservedBefore(j)
            && (j.stream.queue == [] ==>
                  EventsNow(Seen(j)) + (AsSeq(j.stream.waiting) + j.refused) == j.stream.decoded)
  {
    var j := Run(Start(capacity), turns);
    RunIsSound(capacity, turns);
    StreamIsStream(capacity, turns);
    SeenIsComparable(j);
    DroppedAreSlots(j.ahead);
    TimelyWithSlots(cfg, NEW_WORLD, NEW_WORLD, j.full, Fed(DroppedEvents(j.ahead)));
    assert AdvancesUpTo(j.full, n) by {
      assert forall i :: 0 <= i < |j.full| ==> j.full[i] == Seen(j)[i];
    }
    ComparableIsBehind(cfg, j.full, j.lossy, n, at);
    ComparableIsBehind(cfg, Seen(j), j.lossy, n, at);
    if j.stream.queue == [] {
      OnlyDropped(j.ahead);
      EventsFed(j.full, DroppedEvents(j.ahead));
    }
  }

  /** An event that is in the channel when the process ends. */
  function CaughtInChannel(submit: Op, e: StreamEvent): seq<Turn> {
    [OnTracker(Do(submit)), OnStream(Stream.Incoming(Stream.Decoded(e))), OnTracker(Do(Crash)), OnStream(Stream.Take)]
  }

  /** What a crash can cost: a success is in the channel when the process ends. The bundle stays Submitted,
      in the full run too, and no later slot update brings it on; a reconcile pass can. */
  lemma CrashLosesTheChannel(cfg: Config, capacity: nat, submission: Submission, slot: u64, tick: StreamEvent)
    requires capacity > 0 && tick.Slot?
    ensures var success := TxStatus(submission.memoSignature, slot, None, 0);
            var j := Run(Start(capacity), CaughtInChannel(Submit(submission, None, None), success));
            && j.died == multiset{success} && j.full == j.lossy
            && var m := Step(cfg, ProceedAll(cfg, NEW_WORLD, j.full).model, Event(tick));
               1 in m.table && m.table[1].status.Submitted?
  {
    var submit, success := Submit(submission, None, None), TxStatus(submission.memoSignature, slot, None, 0);
    DiesInChannel(capacity, submit, success);
    ProceedOne(cfg, NEW_WORLD, Do(submit));
    ProceedSnoc(cfg, NEW_WORLD, [Do(submit)], Do(Crash));
    StepKeepsInv(cfg, EMPTY, submit);
    SubmittedStays(cfg, Step(cfg, EMPTY, submit), tick);
  }

  lemma DiesInChannel(capacity: nat, submit: Op, e: StreamEvent)
    requires capacity > 0 && submit.Submit?
    ensures var j := Run(Start(capacity), CaughtInChannel(submit, e));
            j.died == multiset{e} && j.full == [Do(submit)] + [Do(Crash)] && j.lossy == j.full
  {
    var t := CaughtInChannel(submit, e);
    TurnByTurn(Start(capacity), t[0], t[1], t[2], t[3]);
    FourTurns(Start(capacity), submit, e);
    assert Start(capacity).full + [Do(submit)] == [Do(submit)];
  }

  lemma FourTurns(j: Joint, submit: Op, e: StreamEvent)
    requires submit.Submit? && j.stream == Stream.Start(j.stream.capacity) && j.stream.capacity > 0
    requires j.ahead == [] && j.refused == []
    ensures var t := CaughtInChannel(submit, e);
            var j' := Next(Next(Next(Next(j, t[0]), t[1]), t[2]), t[3]);
            && j'.died == j.died + multiset{e}
            && j'.full == j.full + [Do(submit)] + [Do(Crash)]
            && j'.lossy == j.lossy + [Do(submit)] + [Do(Crash)]
  {
    var t := CaughtInChannel(submit, e);
    var j1 := Next(j, t[0]);
    Submits(j, submit);
    Waits(j1, e);
    Dies(Next(j1, t[1]), e);
  }

  lemma Submits(j: Joint, submit: Op)
    requires submit.Submit?
    ensures Next(j, OnTracker(Do(submit))) == j.(full := j.full + [Do(submit)], lossy := j.lossy + [Do(submit)])
  {
  }

  lemma Waits(j: Joint, e: StreamEvent)
    requires j.ahead == [] && j.stream == Stream.Start(j.stream.capacity) && j.refused == [] && j.stream.capacity > 0
    ensures var j' := Next(j, OnStream(Stream.Incoming(Stream.Decoded(e))));
            && j' == j.(stream := j'.stream, ahead := [Kept(e)])
            && j'.stream.queue == [e] && j'.stream.waiting.None? && DroppedEvents(j'.ahead) == []
  {
    assert [Kept(e)][1..] == [];
    assert DroppedEvents([Kept(e)]) == DroppedEvents([Kept(e)][1..]);
  }

  lemma Dies(j: Joint, e: StreamEvent)
    requires j.stream.queue == [e] && DroppedEvents(j.ahead) == [] && j.stream.waiting.None? && j.refused == []
    ensures var j' := Next(j, OnTracker(Do(Crash)));
            && j'.full == j.full + [Do(Crash)] && j'.lossy == j.lossy + [Do(Crash)]
            && j'.died == j.died + multiset{e} && Next(j', OnStream(Stream.Take)) == j'
  {
  }

  lemma TurnByTurn(j: Joint, a: Turn, b: Turn, c: Turn, d: Turn)
    ensures Run(j, [a, b, c, d]) == Next(Next(Next(Next(j, a), b), c), d)
  {
    assert [a, b, c, d][..3] == [a, b, c] && [a, b, c][..2] == [a, b] && [a, b][..1] == [a];
    assert Run(j, [a]) == Next(j, a);
    assert Run(j, [a, b]) == Next(Run(j, [a]), b);
    assert Run(j, [a, b, c]) == Next(Run(j, [a, b]), c);
  }

  /** A new row, a crash and a slot update. */
  lemma SubmittedStays(cfg: Config, m: Model, tick: StreamEvent)
    requires Inv(m) && 1 in m.table && m.table[1].status.Submitted? && m.table[1].landedSlot.None? && tick.Slot?
    ensures var m' := Step(cfg, Step(cfg, m, Crash), Event(tick)); 1 in m'.table && m'.table[1].status.Submitted?
  {
    StepKeepsInv(cfg, m, Crash);
    RowAfter(cfg, Step(cfg, m, Crash), Event(tick), 1);
  }
}
