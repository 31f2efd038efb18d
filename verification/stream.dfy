/** crates/stream: forwarding decoded updates into a bounded channel, across reconnections, with slot
    updates dropped when it is full and transaction statuses waiting for room. */
module Stream {
  import opened Wrappers
  import opened StreamEvents

  /** A message from the node; pings and the like carry nothing to forward. */
  datatype Update = Decoded(event: StreamEvent) | Ignored

  /** What can happen: a message arrives, a parked send finds room, the consumer takes an event or goes
      away, the connection is lost and made again. */
  datatype Action = Incoming(update: Update) | Resume | Take | DropConsumer | Reconnect

  /** `decoded`, `enqueued` and `received` record all events so far at each end of the channel. */
  datatype State = State(
    capacity: nat,
    queue: seq<StreamEvent>,
    consumerOpen: bool,
    waiting: Option<StreamEvent>,
    droppedSlots: nat,
    attempt: nat,
    stopped: bool,
    decoded: seq<StreamEvent>,
    enqueued: seq<StreamEvent>,
    received: seq<StreamEvent>)

  function Start(capacity: nat): State {
    State(capacity, [], true, None, 0, 1, false, [], [], [])
  }

  function Enqueue(s: State, e: StreamEvent): State {
    s.(queue := s.queue + [e], enqueued := s.enqueued + [e])
  }

  /** `forward`: nothing is forwarded while an earlier send is parked, since the receive loop awaits it. */
  function Forward(s: State, update: Update): State {
    if s.stopped || s.waiting.Some? || update.Ignored? then s
    else
      var s' := s.(decoded := s.decoded + [update.event]);
      if !s.consumerOpen then s'.(stopped := true)
      else if |s.queue| < s.capacity then Enqueue(s', update.event)
      else if update.event.Slot? then s'.(droppedSlots := s.droppedSlots + 1)
      else s'.(waiting := Some(update.event))
  }

  function Next(s: State, action: Action): State {
    match action
    case Incoming(update) => Forward(s, update)
    case Resume =>
      if s.stopped || s.waiting.None? then s
      else if !s.consumerOpen then s.(stopped := true)
      else if |s.queue| < s.capacity then Enqueue(s, s.waiting.value).(waiting := None)
      else s
    case Take =>
      if s.queue == [] || !s.consumerOpen then s
      else s.(queue := s.queue[1..], received := s.received + [s.queue[0]])
    case DropConsumer => s.(consumerOpen := false)
    case Reconnect => if s.stopped || s.waiting.Some? then s else s.(attempt := s.attempt + 1)
  }

  function Run(s: State, actions: seq<Action>): State {
    if actions == [] then s else Next(Run(s, actions[..|actions| - 1]), actions[|actions| - 1])
  }

  /** The forwarding task and its channel, updated in place. */
  class Supervisor {
    const capacity: nat
    var queue: seq<StreamEvent>
    var consumerOpen: bool
    var waiting: Option<StreamEvent>
    var droppedSlots: nat
    var attempt: nat
    var stopped: bool
    ghost var decoded: seq<StreamEvent>
    ghost var enqueued: seq<StreamEvent>
    ghost var received: seq<StreamEvent>

    ghost function View(): State
      reads this
    {
      State(capacity, queue, consumerOpen, waiting, droppedSlots, attempt, stopped, decoded, enqueued, received)
    }

    constructor (capacity: nat)
      ensures View() == Start(capacity)
    {
      this.capacity := capacity;
      queue, consumerOpen, waiting, droppedSlots, attempt, stopped := [], true, None, 0, 1, false;
      decoded, enqueued, received := [], [], [];
    }

    /** `try_send`: does not wait. */
    method TrySend(e: StreamEvent) returns (full: bool, closed: bool)
      modifies this`queue, this`enqueued
      ensures closed <==> !consumerOpen
      ensures full <==> consumerOpen && |old(queue)| >= capacity
      ensures !full && !closed ==> queue == old(queue) + [e] && enqueued == old(enqueued) + [e]
      ensures full || closed ==> queue == old(queue) && enqueued == old(enqueued)
    {
      closed := !consumerOpen;
      full := consumerOpen && |queue| >= capacity;
      if !full && !closed {
        queue := queue + [e];
        enqueued := enqueued + [e];
      }
    }

    method Perform(action: Action)
      modifies this
      ensures View() == Next(old(View()), action)
    {
      match action
      case Incoming(update) =>
        if !stopped && waiting.None? && update.Decoded? {
          decoded := decoded + [update.event];
          var full, closed := TrySend(update.event);
          if closed {
            stopped := true;
          } else if full && update.event.Slot? {
            droppedSlots := droppedSlots + 1;
          } else if full {
            waiting := Some(update.event);
          }
        }
      case Resume =>
        if !stopped && waiting.Some? {
          var full, closed := TrySend(waiting.value);
          if closed {
            stopped := true;
          } else if !full {
            waiting := None;
          }
        }
      case Take =>
        if queue != [] && consumerOpen {
          received := received + [queue[0]];
          queue := queue[1..];
        }
      case DropConsumer => consumerOpen := false;
      case Reconnect =>
        if !stopped && waiting.None? {
          attempt := attempt + 1;
        }
    }

    /** `run_inner` under any sequence of events from the node and the consumer. */
    method RunInner(actions: seq<Action>)
      modifies this
      ensures View() == Run(old(View()), actions)
    {
      ghost var s := View();
      for i := 0 to |actions|
        invariant View() == Run(s, actions[..i])
      {
        Perform(actions[i]);
        assert actions[..i + 1][..i] == actions[..i];
      }
      assert actions[..|actions|] == actions;
    }
  }

  // ---------------------------------------------------------------------------
  // Conservation
  // ---------------------------------------------------------------------------

  function CountSlots(es: seq<StreamEvent>): nat {
    if es == [] then 0 else CountSlots(es[..|es| - 1]) + if es[|es| - 1].Slot? then 1 else 0
  }

  /** The transaction statuses, in order. */
  function Statuses(es: seq<StreamEvent>): seq<StreamEvent> {
    if es == [] then []
    else Statuses(es[..|es| - 1]) + if es[|es| - 1].TxStatus? then [es[|es| - 1]] else []
  }

  ghost predicate Conserved(s: State) {
    && (s.waiting.Some? ==> s.waiting.value.TxStatus?)
    && s.received + s.queue == s.enqueued
    && |s.queue| <= s.capacity
    && (!s.stopped ==>
          && CountSlots(s.decoded) == CountSlots(s.enqueued) + s.droppedSlots
          && Statuses(s.decoded) == Statuses(s.enqueued) + AsSeq(s.waiting)
          && DropsOnlySlots(s.decoded, s.enqueued + AsSeq(s.waiting)))
  }

  lemma {:induction false} KeepBoth(a: seq<StreamEvent>, b: seq<StreamEvent>, e: StreamEvent)
    requires DropsOnlySlots(a, b)
    ensures DropsOnlySlots(a + [e], b + [e])
  {
    if a == [] {
      assert a + [e] == [e] && b + [e] == [e] && [e][1..] == [];
    } else if b != [] && b[0] == a[0] && DropsOnlySlots(a[1..], b[1..]) {
      KeepBoth(a[1..], b[1..], e);
      assert (a + [e])[1..] == a[1..] + [e] && (b + [e])[1..] == b[1..] + [e];
    } else {
      KeepBoth(a[1..], b, e);
      assert (a + [e])[1..] == a[1..] + [e];
    }
  }

  lemma {:induction false} DropLast(a: seq<StreamEvent>, b: seq<StreamEvent>, e: StreamEvent)
    requires DropsOnlySlots(a, b) && e.Slot?
    ensures DropsOnlySlots(a + [e], b)
  {
    if a == [] {
      assert a + [e] == [e] && [e][1..] == [];
    } else if b != [] && b[0] == a[0] && DropsOnlySlots(a[1..], b[1..]) {
      DropLast(a[1..], b[1..], e);
      assert (a + [e])[1..] == a[1..] + [e];
    } else {
      DropLast(a[1..], b, e);
      assert (a + [e])[1..] == a[1..] + [e];
    }
  }

  lemma CountsOfSnoc(es: seq<StreamEvent>, e: StreamEvent)
    ensures CountSlots(es + [e]) == CountSlots(es) + if e.Slot? then 1 else 0
    ensures Statuses(es + [e]) == Statuses(es) + if e.TxStatus? then [e] else []
  {
  }

  lemma EnqueueConserves(s: State, e: StreamEvent)
    requires Conserved(s) && !s.stopped && s.waiting.None? && |s.queue| < s.capacity
    ensures Conserved(Enqueue(s.(decoded := s.decoded + [e]), e))
  {
    CountsOfSnoc(s.decoded, e);
    CountsOfSnoc(s.enqueued, e);
    assert s.enqueued + [] == s.enqueued && s.enqueued + [e] + [] == s.enqueued + [e];
    KeepBoth(s.decoded, s.enqueued, e);
    assert Statuses(s.enqueued) + [] == Statuses(s.enqueued);
    assert s.received + (s.queue + [e]) == s.enqueued + [e];
  }

  lemma DropConserves(s: State, e: StreamEvent)
    requires Conserved(s) && !s.stopped && s.waiting.None? && e.Slot?
    ensures Conserved(s.(decoded := s.decoded + [e], droppedSlots := s.droppedSlots + 1))
  {
    CountsOfSnoc(s.decoded, e);
    assert s.enqueued + [] == s.enqueued;
    DropLast(s.decoded, s.enqueued, e);
  }

  lemma ParkConserves(s: State, e: StreamEvent)
    requires Conserved(s) && !s.stopped && s.waiting.None? && e.TxStatus?
    ensures Conserved(s.(decoded := s.decoded + [e], waiting := Some(e)))
  {
    CountsOfSnoc(s.decoded, e);
    assert s.enqueued + [] == s.enqueued;
    KeepBoth(s.decoded, s.enqueued, e);
    assert Statuses(s.enqueued) + [] == Statuses(s.enqueued);
  }

  lemma ForwardConserves(s: State, update: Update)
    requires Conserved(s)
    ensures Conserved(Forward(s, update))
  {
    if !s.stopped && s.waiting.None? && update.Decoded? && s.consumerOpen {
      if |s.queue| < s.capacity {
        EnqueueConserves(s, update.event);
      } else if update.event.Slot? {
        DropConserves(s, update.event);
      } else {
        ParkConserves(s, update.event);
      }
    }
  }

  lemma ResumeConserves(s: State)
    requires Conserved(s)
    ensures Conserved(Next(s, Resume))
  {
    if s.waiting.Some? {
      var e := s.waiting.value;
      CountsOfSnoc(s.enqueued, e);
      assert s.received + (s.queue + [e]) == s.enqueued + [e];
      assert s.enqueued + [e] + [] == s.enqueued + [e];
    }
  }

  lemma NextConserves(s: State, action: Action)
    requires Conserved(s)
    ensures Conserved(Next(s, action))
  {
    match action
    case Incoming(update) => ForwardConserves(s, update);
    case Resume => ResumeConserves(s);
    case Take =>
      if s.queue != [] {
        assert s.received + [s.queue[0]] + s.queue[1..] == s.received + s.queue;
      }
    case _ =>
  }

  /** For every capacity and every behaviour of node and consumer, reconnections included, as long as
      no event has met a closed channel: decoded slots are either enqueued or counted as dropped, every
      status is enqueued in order but for the one still waiting, and what is enqueued is what was
      decoded with some slots left out. */
  lemma {:induction false} NothingElseIsLost(capacity: nat, actions: seq<Action>)
    ensures Conserved(Run(Start(capacity), actions))
  {
    if actions == [] {
      assert Start(capacity).received + Start(capacity).queue == [];
    } else {
      NothingElseIsLost(capacity, actions[..|actions| - 1]);
      NextConserves(Run(Start(capacity), actions[..|actions| - 1]), actions[|actions| - 1]);
    }
  }

  // ---------------------------------------------------------------------------
  // Room
  // ---------------------------------------------------------------------------

  /** Only a slot update that finds the channel full is dropped, and only a status that does has to wait. */
  lemma OnlyWhenFull(s: State, action: Action)
    ensures var s' := Next(s, action);
            && (s'.droppedSlots != s.droppedSlots ==>
                  |s.queue| >= s.capacity && action.Incoming? && action.update.Decoded? && action.update.event.Slot?)
            && (s.waiting.None? && s'.waiting.Some? ==>
                  |s.queue| >= s.capacity && action.Incoming? && action.update == Decoded(s'.waiting.value))
            && (action.Resume? && s.consumerOpen && !s.stopped && |s.queue| < s.capacity ==> s'.waiting.None?)
  {
  }

  function Reconnections(actions: seq<Action>): nat {
    if actions == [] then 0
    else Reconnections(actions[..|actions| - 1]) + if actions[|actions| - 1].Reconnect? then 1 else 0
  }

  /** A channel with room for everything decoded drops nothing and keeps nothing waiting, and every reconnection
      counts as an attempt. */
  lemma {:induction false} RoomForAll(capacity: nat, actions: seq<Action>)
    requires |Run(Start(capacity), actions).decoded| <= capacity
    ensures var s := Run(Start(capacity), actions);
            && s.capacity == capacity && s.droppedSlots == 0 && s.waiting.None?
            && |s.queue| <= |s.enqueued| <= |s.decoded|
            && (!s.stopped ==> s.enqueued == s.decoded && s.attempt == 1 + Reconnections(actions))
  {
    if actions != [] {
      RoomForAll(capacity, actions[..|actions| - 1]);
    }
  }
}
