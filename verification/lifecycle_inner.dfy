/** crates/lifecycle: the in-memory state with its signature map and two slot-keyed indices, each
    operation proved to do what scanning every bundle would do. */
module LifecycleInner {
  import opened Wrappers
  import opened Numbers
  import opened StreamEvents
  import opened Failure
  import opened LifecycleRows
  import opened LifecycleModel

  type Index = map<u64, set<int>>

  /** The writes for one bundle, in order. */
  function Select(ws: seq<Write>, id: int): seq<Write> {
    if ws == [] then []
    else
      var w := ws[|ws| - 1];
      Select(ws[..|ws| - 1], id) + if w.id == id then [w] else []
  }

  lemma {:induction false} SelectConcat(a: seq<Write>, b: seq<Write>, id: int)
    ensures Select(a + b, id) == Select(a, id) + Select(b, id)
  {
    if b == [] {
      assert a + b == a;
    } else {
      assert (a + b)[..|a + b| - 1] == a + b[..|b| - 1];
      SelectConcat(a, b[..|b| - 1], id);
    }
  }

  lemma SelectAppend(ws: seq<Write>, w: Option<Write>, id: int)
    ensures Select(ws + AsSeq(w), id) == Select(ws, id) + if w.Some? && w.value.id == id then AsSeq(w) else []
  {
    SelectConcat(ws, AsSeq(w), id);
    if w.Some? {
      assert [w.value][..0] == [];
      assert Select([], id) == [];
    }
  }

  /** The pending map after one bundle's transition. */
  function ApplyEffect(pending: map<int, Pending>, id: int, e: Effect): map<int, Pending> {
    match e.after
    case None => pending - {id}
    case Some(p) => pending[id := p]
  }

  predicate Holds(index: Index, slot: Option<u64>, id: int) {
    slot.Some? && slot.value in index && id in index[slot.value]
  }

  /** `index.entry(slot).or_default().insert(id)`. */
  function Insert(index: Index, slot: u64, id: int): Index {
    index[slot := (if slot in index then index[slot] else {}) + {id}]
  }

  /** `remove_id`: an emptied entry disappears. */
  function RemoveId(index: Index, slot: u64, id: int): Index {
    if slot !in index then index
    else if index[slot] - {id} == {} then index - {slot}
    else index[slot := index[slot] - {id}]
  }

  ghost predicate PendingOk(pending: map<int, Pending>) {
    forall id :: id in pending ==>
      pending[id].state.Open() && (pending[id].state.Submitted? <==> pending[id].landedSlot.None?)
  }

  /** The signature map is the inverse of the pending signatures. */
  ghost predicate SigsOk(bySig: map<string, int>, pending: map<int, Pending>) {
    && (forall id :: id in pending ==>
          pending[id].memoSignature in bySig && bySig[pending[id].memoSignature] == id)
    && (forall s :: s in bySig ==> bySig[s] in pending && pending[bySig[s]].memoSignature == s)
  }

  lemma SignatureIsOwned(bySig: map<string, int>, pending: map<int, Pending>, s: string)
    requires SigsOk(bySig, pending)
    ensures s in bySig ==> exists id :: id in pending && pending[id].memoSignature == s
  {
    if s in bySig {
      var id := bySig[s];
      assert id in pending && pending[id].memoSignature == s;
    }
  }

  /** Every id in an index is pending under its own landed slot, and no entry is empty. */
  ghost predicate IndexOk(index: Index, pending: map<int, Pending>) {
    && (forall k :: k in index ==> index[k] != {})
    && (forall k, id :: k in index && id in index[k] ==> id in pending && pending[id].landedSlot == Some(k))
  }

  /** Every bundle at this stage is in the index, except those already taken out to be handled. */
  ghost predicate IndexComplete(index: Index, pending: map<int, Pending>, stage: Stage, owed: set<int>) {
    forall id :: id in pending && pending[id].state == stage && id !in owed ==>
      Holds(index, pending[id].landedSlot, id)
  }

  /** A record hydration can take in next: a new id, a new signature, and slots that fit its stage. */
  ghost predicate Loadable(pending: map<int, Pending>, id: int, p: Pending) {
    && id !in pending
    && (forall j :: j in pending ==> pending[j].memoSignature != p.memoSignature)
    && p.state.Open()
    && (p.state.Submitted? <==> p.landedSlot.None?)
  }

  ghost predicate StateOk(bySig: map<string, int>, pending: map<int, Pending>, confirm: Index, finalize: Index,
                          unconfirmed: set<int>, unfinalized: set<int>)
  {
    && PendingOk(pending)
    && SigsOk(bySig, pending)
    && IndexOk(confirm, pending)
    && IndexOk(finalize, pending)
    && IndexComplete(confirm, pending, Processed, unconfirmed)
    && IndexComplete(finalize, pending, Confirmed, unfinalized)
  }

  lemma LoadOk(bySig: map<string, int>, pending: map<int, Pending>, confirm: Index, finalize: Index, id: int,
               p: Pending)
    ensures StateOk(bySig, pending, confirm, finalize, {}, {}) && Loadable(pending, id, p) ==>
              StateOk(bySig[p.memoSignature := id], pending[id := p],
                      if p.state.Processed? then Insert(confirm, p.landedSlot.value, id) else confirm,
                      if p.state.Confirmed? then Insert(finalize, p.landedSlot.value, id) else finalize, {}, {})
  {
    if StateOk(bySig, pending, confirm, finalize, {}, {}) && Loadable(pending, id, p) {
      var pending' := pending[id := p];
      AddIndexOk(confirm, pending, id, p);
      AddIndexOk(finalize, pending, id, p);
      if p.state.Processed? {
        InsertOk(confirm, pending', p.landedSlot.value, id);
      } else if p.state.Confirmed? {
        InsertOk(finalize, pending', p.landedSlot.value, id);
      }
      assert SigsOk(bySig[p.memoSignature := id], pending');
    }
  }

  /** A bundle that is not yet tracked is in no index. */
  lemma AddIndexOk(index: Index, pending: map<int, Pending>, id: int, p: Pending)
    requires IndexOk(index, pending) && id !in pending
    ensures IndexOk(index, pending[id := p])
    ensures forall stage :: IndexComplete(index, pending, stage, {}) && p.state != stage ==>
              IndexComplete(index, pending[id := p], stage, {})
  {
  }

  lemma InsertOk(index: Index, pending: map<int, Pending>, slot: u64, id: int)
    requires IndexOk(index, pending) && id in pending && pending[id].landedSlot == Some(slot)
    ensures IndexOk(Insert(index, slot, id), pending)
    ensures Holds(Insert(index, slot, id), Some(slot), id)
    ensures forall k, j :: Holds(index, Some(k), j) ==> Holds(Insert(index, slot, id), Some(k), j)
  {
  }

  /** A record may change without touching any index, as long as its signature and slot stay. */
  lemma UpdateOk(bySig: map<string, int>, pending: map<int, Pending>, id: int, p: Pending)
    requires SigsOk(bySig, pending) && id in pending && p.memoSignature == pending[id].memoSignature
    ensures SigsOk(bySig, pending[id := p])
    ensures p.landedSlot == pending[id].landedSlot || pending[id].landedSlot.None? ==>
              forall index :: IndexOk(index, pending) ==> IndexOk(index, pending[id := p])
  {
  }

  lemma ProcessedOk(bySig: map<string, int>, pending: map<int, Pending>, confirm: Index, finalize: Index, id: int,
                    p: Pending)
    requires StateOk(bySig, pending, confirm, finalize, {}, {}) && id in pending && pending[id].state.Submitted?
    requires p.state.Processed? && p.landedSlot.Some? && p.memoSignature == pending[id].memoSignature
    ensures StateOk(bySig, pending[id := p], Insert(confirm, p.landedSlot.value, id), finalize, {}, {})
  {
    UpdateOk(bySig, pending, id, p);
    InsertOk(confirm, pending[id := p], p.landedSlot.value, id);
  }

  lemma ConfirmedOk(bySig: map<string, int>, pending: map<int, Pending>, confirm: Index, finalize: Index,
                    owed: set<int>, id: int, p: Pending)
    requires StateOk(bySig, pending, confirm, finalize, owed, {}) && id in pending && pending[id].state.Processed?
    requires p.state.Confirmed? && p.landedSlot == pending[id].landedSlot
        && p.memoSignature == pending[id].memoSignature
    ensures p.landedSlot.Some?
    ensures StateOk(bySig, pending[id := p], confirm, Insert(finalize, p.landedSlot.value, id), owed - {id}, {})
  {
    UpdateOk(bySig, pending, id, p);
    InsertOk(finalize, pending[id := p], p.landedSlot.value, id);
  }

  /** Removing a bundle from its one possible entry removes it altogether, and nothing else. */
  lemma RemoveOk(index: Index, pending: map<int, Pending>, id: int)
    requires IndexOk(index, pending) && id in pending && pending[id].landedSlot.Some?
    ensures var index' := RemoveId(index, pending[id].landedSlot.value, id);
            && IndexOk(index', pending - {id})
            && (forall k :: !Holds(index', Some(k), id))
            && (forall k, j :: j != id && Holds(index, Some(k), j) ==> Holds(index', Some(k), j))
  {
    var slot := pending[id].landedSlot.value;
    var index' := RemoveId(index, slot, id);
    forall k, j | k in index' && j in index'[k]
      ensures j != id && j in pending && pending[j].landedSlot == Some(k)
    {
      assert k in index && j in index[k];
    }
    forall k, j | j != id && Holds(index, Some(k), j) ensures Holds(index', Some(k), j) {
      assert k == slot ==> j in index[slot] - {id};
    }
  }

  /** An index without a bundle that is being forgotten; one that has not landed is in no index. */
  function Without(index: Index, p: Pending, id: int): Index {
    match p.landedSlot case None => index case Some(slot) => RemoveId(index, slot, id)
  }

  lemma WithoutOk(index: Index, pending: map<int, Pending>, stage: Stage, owed: set<int>, id: int)
    requires IndexOk(index, pending) && IndexComplete(index, pending, stage, owed) && id in pending
    ensures var index' := Without(index, pending[id], id);
            && IndexOk(index', pending - {id}) && IndexComplete(index', pending - {id}, stage, owed - {id})
            && forall k :: k in index' ==> id !in index'[k]
  {
    var index' := Without(index, pending[id], id);
    if pending[id].landedSlot.Some? {
      RemoveOk(index, pending, id);
      forall k | k in index' ensures id !in index'[k] {
        assert !Holds(index', Some(k), id);
      }
    }
  }

  lemma ForgetOk(bySig: map<string, int>, pending: map<int, Pending>, confirm: Index, finalize: Index, owed: set<int>,
                 id: int)
    requires StateOk(bySig, pending, confirm, finalize, owed, owed) && id in pending
    ensures var p := pending[id];
            var bySig' := bySig - {p.memoSignature};
            var confirm', finalize' := Without(confirm, p, id), Without(finalize, p, id);
            && StateOk(bySig', pending - {id}, confirm', finalize', owed - {id}, owed - {id})
            && (forall s :: s in bySig' ==> bySig'[s] != id)
            && (forall k :: k in confirm' ==> id !in confirm'[k])
            && (forall k :: k in finalize' ==> id !in finalize'[k])
  {
    WithoutOk(confirm, pending, Processed, owed, id);
    WithoutOk(finalize, pending, Confirmed, owed, id);
  }

  class Inner {
    var bySig: map<string, int>
    var pending: map<int, Pending>
    var confirmIndex: Index
    var finalizeIndex: Index
    var lastObservedSlot: u64

    /** The invariant, but for the ids that have been drained from the one index or the other and
        are about to be advanced. The confirm index may also hold bundles already Confirmed. */
    ghost predicate ValidBut(unconfirmed: set<int>, unfinalized: set<int>)
      reads this
    {
      StateOk(bySig, pending, confirmIndex, finalizeIndex, unconfirmed, unfinalized)
    }

    ghost predicate Valid()
      reads this
    {
      ValidBut({}, {})
    }

    constructor ()
      ensures Valid() && pending == map[] && lastObservedSlot == 0
    {
      bySig, pending, confirmIndex, finalizeIndex, lastObservedSlot := map[], map[], map[], map[], 0;
    }

    /** Start tracking a bundle that has just been submitted. */
    method Track(id: int, p: Pending)
      requires Valid() && id !in pending && p.memoSignature !in bySig
      requires p.state.Submitted? && p.landedSlot.None?
      modifies this
      ensures Valid() && lastObservedSlot == old(lastObservedSlot)
      ensures pending == old(pending)[id := p]
    {
      bySig := bySig[p.memoSignature := id];
      pending := pending[id := p];
    }

    /** Take in one row during hydration. */
    method Load(id: int, p: Pending)
      modifies this
      ensures pending == old(pending)[id := p]
      ensures lastObservedSlot == Max(Max(old(lastObservedSlot), p.landedSlot.GetOr(0)), p.submittedSlot)
      ensures (old(Valid()) && Loadable(old(pending), id, p)) ==> Valid()
    {
      LoadOk(bySig, pending, confirmIndex, finalizeIndex, id, p);
      bySig := bySig[p.memoSignature := id];
      pending := pending[id := p];
      if p.state.Processed? && p.landedSlot.Some? {
        confirmIndex := Insert(confirmIndex, p.landedSlot.value, id);
      } else if p.state.Confirmed? && p.landedSlot.Some? {
        finalizeIndex := Insert(finalizeIndex, p.landedSlot.value, id);
      }
      lastObservedSlot := Max(Max(lastObservedSlot, p.landedSlot.GetOr(0)), p.submittedSlot);
    }

    method NoteJitoStatus(id: int, status: string)
      requires Valid()
      modifies this
      ensures Valid() && lastObservedSlot == old(lastObservedSlot)
      ensures pending == if id !in old(pending) then old(pending)
                         else old(pending)[id := old(pending)[id].(jitoInflight := Some(status))]
    {
      if id in pending {
        pending := pending[id := pending[id].(jitoInflight := Some(status))];
      }
    }

    method MarkProcessed(id: int, slot: u64, at: int, source: Source) returns (w: Option<Write>)
      requires Valid()
      modifies this
      ensures Valid() && lastObservedSlot == old(lastObservedSlot)
      ensures id !in old(pending) ==> w == None && pending == old(pending)
      ensures id in old(pending) ==>
        var e := Processing(id, old(pending)[id], slot, at, source);
        AsSeq(w) == e.writes && pending == ApplyEffect(old(pending), id, e)
    {
      if id !in pending || !pending[id].state.Submitted? {
        return None;
      }
      var p := pending[id].(state := Processed, processedAt := Some(at), landedSlot := Some(slot));
      ProcessedOk(bySig, pending, confirmIndex, finalizeIndex, id, p);
      pending := pending[id := p];
      confirmIndex := Insert(confirmIndex, slot, id);
      w := Some(WriteProcessed(id, at, AsI64(slot), Some(at - p.submittedAt), source));
    }

    method MarkConfirmed(id: int, at: int, source: Source, ghost owed: set<int>) returns (w: Option<Write>)
      requires ValidBut(owed, {})
      modifies this
      ensures ValidBut(owed - {id}, {})
      ensures bySig == old(bySig) && lastObservedSlot == old(lastObservedSlot)
      ensures id !in old(pending) ==> w == None && pending == old(pending)
      ensures id in old(pending) ==>
        var e := Confirming(id, old(pending)[id], at, source);
        AsSeq(w) == e.writes && pending == ApplyEffect(old(pending), id, e)
    {
      if id !in pending || !pending[id].state.Processed? {
        return None;
      }
      var p := pending[id];
      ConfirmedOk(bySig, pending, confirmIndex, finalizeIndex, owed, id,
                  p.(state := Confirmed, confirmedAt := Some(at)));
      pending := pending[id := p.(state := Confirmed, confirmedAt := Some(at))];
      if p.landedSlot.Some? {
        finalizeIndex := Insert(finalizeIndex, p.landedSlot.value, id);
      }
      w := Some(WriteConfirmed(id, at, Since(p.processedAt, at), source));
    }

    method MarkFinalized(id: int, at: int, source: Source, ghost owed: set<int>) returns (w: Option<Write>)
      requires ValidBut(owed, owed)
      modifies this
      ensures ValidBut(owed - {id}, owed - {id})
      ensures lastObservedSlot == old(lastObservedSlot)
      ensures id !in old(pending) ==> w == None && pending == old(pending)
      ensures id in old(pending) ==>
        var e := Finalizing(id, old(pending)[id], at, source);
        AsSeq(w) == e.writes && pending == ApplyEffect(old(pending), id, e)
    {
      if id !in pending || (!pending[id].state.Processed? && !pending[id].state.Confirmed?) {
        return None;
      }
      var ms := Since(pending[id].confirmedAt, at);
      Forget(id, owed);
      w := Some(WriteFinalized(id, at, ms, source));
    }

    method FailLanded(id: int, verdict: Classification, slot: u64, at: int) returns (w: Option<Write>)
      requires Valid()
      modifies this
      ensures Valid() && lastObservedSlot == old(lastObservedSlot)
      ensures id !in old(pending) ==> w == None && pending == old(pending)
      ensures id in old(pending) ==>
        var e := FailingLanded(id, old(pending)[id], verdict, slot, at);
        AsSeq(w) == e.writes && pending == ApplyEffect(old(pending), id, e)
    {
      if id !in pending || (!pending[id].state.Submitted? && !pending[id].state.Processed?) {
        return None;
      }
      var submittedAt := pending[id].submittedAt;
      Forget(id, {});
      w := Some(WriteFailed(id, verdict, Some(AsI64(slot)), Some(at), Some(at - submittedAt), at));
    }

    /** Forgetting a bundle leaves no trace of it anywhere. */
    method Forget(id: int, ghost owed: set<int>)
      requires ValidBut(owed, owed)
      modifies this
      ensures ValidBut(owed - {id}, owed - {id}) && lastObservedSlot == old(lastObservedSlot)
      ensures pending == old(pending) - {id}
      ensures forall s :: s in bySig ==> bySig[s] != id
      ensures forall k :: k in confirmIndex ==> id !in confirmIndex[k]
      ensures forall k :: k in finalizeIndex ==> id !in finalizeIndex[k]
      ensures id !in old(pending) ==>
        bySig == old(bySig) && confirmIndex == old(confirmIndex) && finalizeIndex == old(finalizeIndex)
    {
      if id in pending {
        ForgetOk(bySig, pending, confirmIndex, finalizeIndex, owed, id);
        var p := pending[id];
        pending := pending - {id};
        bySig := bySig - {p.memoSignature};
        if p.landedSlot.Some? {
          confirmIndex := RemoveId(confirmIndex, p.landedSlot.value, id);
          finalizeIndex := RemoveId(finalizeIndex, p.landedSlot.value, id);
        }
      }
    }

    /** Confirm the drained ids, in whatever order they came. */
    method ConfirmAll(ids: seq<int>, at: int) returns (ws: seq<Write>)
      requires ValidBut(Members(ids), {})
      modifies this
      ensures Valid() && lastObservedSlot == old(lastObservedSlot)
      ensures AllMatch(old(pending), pending, ws, Members(ids), ConfirmingAll(old(pending), at))
    {
      ghost var before, effects := pending, ConfirmingAll(pending, at);
      ws := [];
      ghost var owed, done: set<int> := Members(ids), {};
      for i := 0 to |ids|
        invariant done == Members(ids[..i]) && owed == Members(ids) - done
        invariant ValidBut(owed, {}) && lastObservedSlot == old(lastObservedSlot)
        invariant AllMatch(before, pending, ws, done, effects)
      {
        var id := ids[i];
        ghost var pending0, ws0 := pending, ws;
        var w := MarkConfirmed(id, at, FromStream, owed);
        ws := ws + AsSeq(w);
        ConfirmOne(before, pending0, pending, ws0, w, done, id, at);
        assert ids[..i + 1] == ids[..i] + [id];
        owed, done := owed - {id}, done + {id};
      }
      assert ids[..|ids|] == ids;
    }

    /** A Confirmed update for slot `n`: exactly the Processed bundles landed by then are confirmed. */
    method ConfirmUpTo(rules: Interpreter, n: u64, at: int) returns (ws: seq<Write>)
      requires Valid()
      modifies this
      ensures Valid() && lastObservedSlot == old(lastObservedSlot)
      ensures forall id :: Matches(pending, ws, id, EventEffect(rules, old(pending), id, Slot(n, SlotConfirmed, at)))
    {
      ghost var before, index := pending, confirmIndex;
      var rest, ids := DrainLe(confirmIndex, n);
      DrainOk(index, rest, ids, n, pending, Processed);
      confirmIndex := rest;
      ws := ConfirmAll(ids, at);
      ConfirmScan(rules, index, ids, n, before, at, pending, ws);
    }

    /** Finalize the drained ids; one that was in both indices is met twice. */
    method FinalizeAll(ids: seq<int>, at: int) returns (ws: seq<Write>)
      requires ValidBut(Members(ids), Members(ids))
      modifies this
      ensures Valid() && lastObservedSlot == old(lastObservedSlot)
      ensures AllMatch(old(pending), pending, ws, Members(ids), FinalizingAll(old(pending), at))
    {
      ghost var before, effects := pending, FinalizingAll(pending, at);
      ws := [];
      ghost var owed, done: set<int> := Members(ids), {};
      for i := 0 to |ids|
        invariant done == Members(ids[..i]) && owed == Members(ids) - done
        invariant ValidBut(owed, owed) && lastObservedSlot == old(lastObservedSlot)
        invariant AllMatch(before, pending, ws, done, effects)
      {
        var id := ids[i];
        ghost var pending0, ws0 := pending, ws;
        var w := MarkFinalized(id, at, FromStream, owed);
        ws := ws + AsSeq(w);
        FinalizeOne(before, pending0, pending, ws0, w, done, id, at);
        assert ids[..i + 1] == ids[..i] + [id];
        owed, done := owed - {id}, done + {id};
      }
      assert ids[..|ids|] == ids;
    }

    /** A Finalized update for slot `n`: exactly the Processed and Confirmed bundles landed by
        then are finalized, once each. */
    method FinalizeUpTo(rules: Interpreter, n: u64, at: int) returns (ws: seq<Write>)
      requires Valid()
      modifies this
      ensures Valid() && lastObservedSlot == old(lastObservedSlot)
      ensures forall id :: Matches(pending, ws, id, EventEffect(rules, old(pending), id, Slot(n, SlotFinalized, at)))
    {
      ghost var before, confirm, finalize := pending, confirmIndex, finalizeIndex;
      var restF, idsF := DrainLe(finalizeIndex, n);
      DrainOk(finalize, restF, idsF, n, pending, Confirmed);
      finalizeIndex := restF;
      var restC, idsC := DrainLe(confirmIndex, n);
      DrainOk(confirm, restC, idsC, n, pending, Processed);
      confirmIndex := restC;
      ws := FinalizeAll(idsF + idsC, at);
      FinalizeScan(rules, confirm, idsC, finalize, idsF, n, before, at, pending, ws);
    }

    /** `apply_event`: what every bundle becomes, and what is written for it, is what a scan gives. */
    method ApplyEvent(rules: Interpreter, event: StreamEvent) returns (ws: seq<Write>)
      requires Valid()
      modifies this
      ensures Valid() && lastObservedSlot == NextClock(old(lastObservedSlot), Event(event))
      ensures forall id :: Matches(pending, ws, id, EventEffect(rules, old(pending), id, event))
    {
      ws := [];
      match event
      case Slot(n, status, at) =>
        lastObservedSlot := Max(lastObservedSlot, n);
        if status.SlotConfirmed? {
          ws := ConfirmUpTo(rules, n, at);
        } else if status.SlotFinalized? {
          ws := FinalizeUpTo(rules, n, at);
        }
      case TxStatus(signature, slot, err, at) =>
        if signature in bySig {
          ghost var before := pending;
          var id := bySig[signature];
          var w;
          if err.None? {
            w := MarkProcessed(id, slot, at, FromStream);
          } else {
            w := FailLanded(id, Classify(rules, OnChainError(err.value, slot)), slot, at);
          }
          ws := AsSeq(w);
          OneTxEffect(rules, before, pending, w, id, event);
        }
    }
  }

  ghost predicate Drained(index: Index, ids: seq<int>, n: u64) {
    forall id :: id in ids <==> exists k :: k in index && k <= n && id in index[k]
  }

  lemma DrainOk(index: Index, rest: Index, ids: seq<int>, n: u64, pending: map<int, Pending>, stage: Stage)
    requires IndexOk(index, pending) && IndexComplete(index, pending, stage, {})
    requires rest == (map k | k in index && k > n :: index[k]) && Drained(index, ids, n)
    ensures IndexOk(rest, pending) && IndexComplete(rest, pending, stage, Members(ids))
  {
  }

  /** A drained bundle is one that landed by slot `n`; one that is not drained is not Processed. */
  lemma DrainedIsLanded(index: Index, ids: seq<int>, n: u64, pending: map<int, Pending>, stage: Stage, id: int)
    requires IndexOk(index, pending) && IndexComplete(index, pending, stage, {}) && Drained(index, ids, n)
    ensures id in ids ==> id in pending && LandedBy(pending[id], n)
    ensures id in pending && LandedBy(pending[id], n) && pending[id].state == stage ==> id in ids
  {
  }

  predicate LandedBy(p: Pending, n: u64) {
    p.landedSlot.Some? && p.landedSlot.value <= n
  }

  lemma ConfirmScan(rules: Interpreter, index: Index, ids: seq<int>, n: u64, before: map<int, Pending>, at: int,
                    now: map<int, Pending>, ws: seq<Write>)
    requires IndexOk(index, before) && IndexComplete(index, before, Processed, {}) && Drained(index, ids, n)
    requires AllMatch(before, now, ws, Members(ids), ConfirmingAll(before, at))
    ensures forall id :: Matches(now, ws, id, EventEffect(rules, before, id, Slot(n, SlotConfirmed, at)))
  {
    forall id ensures Matches(now, ws, id, EventEffect(rules, before, id, Slot(n, SlotConfirmed, at))) {
      assert Matches(now, ws, id, if id in Members(ids) then ConfirmingAll(before, at)(id) else KeepOf(before, id));
      DrainedIsLanded(index, ids, n, before, Processed, id);
    }
  }

  lemma FinalizeScan(rules: Interpreter, confirm: Index, idsC: seq<int>, finalize: Index, idsF: seq<int>, n: u64,
                     before: map<int, Pending>, at: int, now: map<int, Pending>, ws: seq<Write>)
    requires PendingOk(before)
    requires IndexOk(confirm, before) && IndexComplete(confirm, before, Processed, {}) && Drained(confirm, idsC, n)
    requires IndexOk(finalize, before) && IndexComplete(finalize, before, Confirmed, {}) && Drained(finalize, idsF, n)
    requires AllMatch(before, now, ws, Members(idsF + idsC), FinalizingAll(before, at))
    ensures forall id :: Matches(now, ws, id, EventEffect(rules, before, id, Slot(n, SlotFinalized, at)))
  {
    forall id ensures Matches(now, ws, id, EventEffect(rules, before, id, Slot(n, SlotFinalized, at))) {
      assert Matches(now, ws, id,
                     if id in Members(idsF + idsC) then FinalizingAll(before, at)(id) else KeepOf(before, id));
      DrainedIsLanded(confirm, idsC, n, before, Processed, id);
      DrainedIsLanded(finalize, idsF, n, before, Confirmed, id);
    }
  }

  /** A transaction status reaches the one bundle that has its signature. */
  lemma OneTxEffect(rules: Interpreter, before: map<int, Pending>, now: map<int, Pending>, w: Option<Write>, id: int,
                    event: StreamEvent)
    requires event.TxStatus?
    requires id in before && before[id].memoSignature == event.signature
    requires forall j :: j in before && before[j].memoSignature == event.signature ==> j == id
    requires AsSeq(w) == OnEvent(rules, id, before[id], event).writes
    requires now == ApplyEffect(before, id, OnEvent(rules, id, before[id], event))
    ensures forall j :: Matches(now, AsSeq(w), j, EventEffect(rules, before, j, event))
  {
    assert [] + AsSeq(w) == AsSeq(w);
    assert w.Some? ==> w.value.id == id;
    AdvanceOne(before, now, [], w, id, OnEvent(rules, id, before[id], event));
    forall j | j != id ensures Matches(now, AsSeq(w), j, EventEffect(rules, before, j, event)) {
      assert EventEffect(rules, before, j, event) == KeepOf(before, j);
      assert Matches(before, [], j, KeepOf(before, j));
    }
  }

  /** The bundles in `done` have undergone their effects and the others nothing. */
  ghost predicate AllMatch(before: map<int, Pending>, now: map<int, Pending>, ws: seq<Write>, done: set<int>,
                           effects: int -> Effect)
  {
    forall id :: Matches(now, ws, id, if id in done then effects(id) else KeepOf(before, id))
  }

  ghost function ConfirmingAll(pending: map<int, Pending>, at: int): int -> Effect {
    id => if id in pending then Confirming(id, pending[id], at, FromStream) else Effect(None, [])
  }

  ghost function FinalizingAll(pending: map<int, Pending>, at: int): int -> Effect {
    id => if id in pending then Finalizing(id, pending[id], at, FromStream) else Effect(None, [])
  }

  /** One more bundle done: it has undergone its effect and the others are as they were. */
  lemma AllMatchNext(before: map<int, Pending>, now: map<int, Pending>, now': map<int, Pending>, ws: seq<Write>,
                     w: Option<Write>, done: set<int>, id: int, effects: int -> Effect)
    requires AllMatch(before, now, ws, done, effects)
    requires w.Some? ==> w.value.id == id
    requires forall j :: j != id ==> Lookup(now', j) == Lookup(now, j)
    requires Lookup(now', id) == effects(id).after && Select(ws, id) + AsSeq(w) == effects(id).writes
    ensures AllMatch(before, now', ws + AsSeq(w), done + {id}, effects)
  {
    AdvanceOne(now, now', ws, w, id, effects(id));
    forall j ensures Matches(now', ws + AsSeq(w), j, if j in done + {id} then effects(j) else KeepOf(before, j)) {
      assert Matches(now, ws, j, if j in done then effects(j) else KeepOf(before, j));
    }
  }

  /** One step of `ConfirmAll`; an id met for the second time is left alone. */
  lemma ConfirmOne(before: map<int, Pending>, now: map<int, Pending>, now': map<int, Pending>, ws: seq<Write>,
                   w: Option<Write>, done: set<int>, id: int, at: int)
    requires AllMatch(before, now, ws, done, ConfirmingAll(before, at))
    requires id !in now ==> w == None && now' == now
    requires id in now ==>
      AsSeq(w) == Confirming(id, now[id], at, FromStream).writes
      && now' == ApplyEffect(now, id, Confirming(id, now[id], at, FromStream))
    ensures AllMatch(before, now', ws + AsSeq(w), done + {id}, ConfirmingAll(before, at))
  {
    var effects := ConfirmingAll(before, at);
    assert Matches(now, ws, id, if id in done then effects(id) else KeepOf(before, id));
    AllMatchNext(before, now, now', ws, w, done, id, effects);
  }

  /** One step of `FinalizeAll`; an id met for the second time is gone. */
  lemma FinalizeOne(before: map<int, Pending>, now: map<int, Pending>, now': map<int, Pending>, ws: seq<Write>,
                    w: Option<Write>, done: set<int>, id: int, at: int)
    requires AllMatch(before, now, ws, done, FinalizingAll(before, at))
    requires id !in now ==> w == None && now' == now
    requires id in now ==>
      AsSeq(w) == Finalizing(id, now[id], at, FromStream).writes
      && now' == ApplyEffect(now, id, Finalizing(id, now[id], at, FromStream))
    ensures AllMatch(before, now', ws + AsSeq(w), done + {id}, FinalizingAll(before, at))
  {
    var effects := FinalizingAll(before, at);
    assert Matches(now, ws, id, if id in done then effects(id) else KeepOf(before, id));
    AllMatchNext(before, now, now', ws, w, done, id, effects);
  }

  function Members(ids: seq<int>): set<int> {
    set id | id in ids
  }

  ghost predicate Matches(pending: map<int, Pending>, ws: seq<Write>, id: int, e: Effect) {
    Lookup(pending, id) == e.after && Select(ws, id) == e.writes
  }

  function EventEffect(rules: Interpreter, pending: map<int, Pending>, id: int, e: StreamEvent): Effect {
    if id in pending then OnEvent(rules, id, pending[id], e) else Effect(None, [])
  }

  function KeepOf(pending: map<int, Pending>, id: int): Effect {
    if id in pending then Keep(pending[id]) else Effect(None, [])
  }

  /** `drain_le`: take out every entry at slots up to `n` and list the ids they held. */
  method DrainLe(index: Index, n: u64) returns (rest: Index, ids: seq<int>)
    ensures rest == map k | k in index && k > n :: index[k]
    ensures Drained(index, ids, n)
  {
    var keys := set k | k in index && k <= n;
    ghost var drained: set<u64> := {};
    rest, ids := index, [];
    while keys != {}
      invariant keys + drained == (set k | k in index && k <= n) && keys !! drained
      invariant rest == index - drained
      invariant forall id :: id in ids <==> exists k :: k in drained && id in index[k]
      decreases keys
    {
      var k :| k in keys;
      var more := Elements(rest[k]);
      ids := ids + more;
      rest := rest - {k};
      keys := keys - {k};
      drained := drained + {k};
    }
  }

  /** One more bundle advanced: its own writes are appended, everyone else's stay as they were. */
  lemma AdvanceOne(pending: map<int, Pending>, pending': map<int, Pending>, ws: seq<Write>, w: Option<Write>,
                   id: int, e: Effect)
    requires w.Some? ==> w.value.id == id
    requires forall j :: j != id ==> Lookup(pending', j) == Lookup(pending, j)
    requires Lookup(pending', id) == e.after && Select(ws, id) + AsSeq(w) == e.writes
    ensures Matches(pending', ws + AsSeq(w), id, e)
    ensures forall j, f :: j != id && Matches(pending, ws, j, f) ==> Matches(pending', ws + AsSeq(w), j, f)
  {
    forall j ensures Select(ws + AsSeq(w), j) == Select(ws, j) + if j == id then AsSeq(w) else [] {
      SelectAppend(ws, w, j);
    }
  }
}
