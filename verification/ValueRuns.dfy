/** Runs of value operations: constructors, assignments, copies and destructors on
    any number of values. */
module ValueRuns {
  import opened Core
  import opened Values

  /** Values named by an operation are declared ones. */
  ghost predicate Known(w: World, id: ValueId) {
    id in w.values
  }

  datatype Result = Done(world: World, error: Error) | Aborted

  function OwnedValue(t: Traits, a: Address): Value {
    Value(t.typeId, t.pointeeId, t.pointeeConst, Owned, a, Owning(t), t.usesBuffer)
  }

  function BorrowedValue(t: Traits, policy: Policy, target: Address): Value {
    Value(t.typeId, t.pointeeId, t.pointeeConst, policy, target, Borrowing, false)
  }

  lemma DeclaredFree(w: World)
    requires Good(w)
    ensures Good(Declare(w))
    ensures Inline(w.nextValue) !in Declare(w).live && Heap(Declare(w).nextCell) !in Declare(w).live
  {
    DeclareGood(w);
  }

  /** Value(T&&). */
  function FromObject(w: World, t: Traits, content: int): (r: World)
    requires Good(w)
    ensures Good(r)
  {
    DeclaredFree(w);
    var id, w1 := w.nextValue, Declare(w);
    var v := OwnedValue(t, if t.usesBuffer then Inline(id) else Heap(w1.nextCell));
    AdoptGood(w1, id, v, content);
    Adopt(w1, id, v, content)
  }

  /** ref, cref and rref. */
  function Refer(w: World, t: Traits, policy: Policy, target: Address): (r: World)
    requires Good(w) && policy != Owned && target != Null
    ensures Good(r)
  {
    DeclareGood(w);
    BorrowGood(Declare(w), w.nextValue, BorrowedValue(t, policy, target));
    Declare(w).(values := Declare(w).values[w.nextValue := BorrowedValue(t, policy, target)])
  }

  lemma EndGood(w: World, id: ValueId)
    requires Good(w) && Known(w, id)
    ensures Destroyable(w, id) && Good(Discard(Reset(w, id), id))
  {
    ResetGood(w, id);
    DiscardGood(Reset(w, id), id);
  }

  /** ~Value. */
  function EndOfLife(w: World, id: ValueId): (r: World)
    requires Good(w) && Known(w, id)
    ensures Good(r) && r.values == w.values - {id} && r.nextValue == w.nextValue
  {
    EndGood(w, id);
    Discard(Reset(w, id), id)
  }

  lemma MoveAssignGood(w: World, to: ValueId, from: ValueId)
    requires Good(w) && Known(w, to) && Known(w, from) && to != from
    ensures Destroyable(w, to) && Movable(Reset(w, to), to, from)
    ensures var r := MoveFrom(Reset(w, to), to, from);
            Good(r) && r.values == w.values[to := r.values[to]][from := EMPTY] && r.nextValue == w.nextValue
  {
    ResetGood(w, to);
    var w1 := Reset(w, to);
    MoveFromGood(w1, to, from);
    MoveFromShape(w1, to, from);
    Overwrite(w.values, to, EMPTY, MoveFrom(w1, to, from).values[to]);
  }

  /** operator=(Value&&). */
  function MoveAssign(w: World, to: ValueId, from: ValueId): (r: World)
    requires Good(w) && Known(w, to) && Known(w, from)
    ensures Good(r) && r.values.Keys == w.values.Keys && r.nextValue == w.nextValue
    ensures to != from ==> r.values == w.values[to := r.values[to]][from := EMPTY]
  {
    if to == from then w
    else
      MoveAssignGood(w, to, from);
      MoveFrom(Reset(w, to), to, from)
  }

  /** Value(Value&&). */
  function MoveOf(w: World, from: ValueId): (r: World)
    requires Good(w) && Known(w, from)
    ensures Good(r)
  {
    DeclareGood(w);
    MoveFromGood(Declare(w), w.nextValue, from);
    MoveFrom(Declare(w), w.nextValue, from)
  }

  predicate Copyable(v: Value) {
    v.data == Null || v.ops.Borrowing? || (v.ops.Owning? && v.ops.traits.copyable)
  }

  /** The replacement of try_copy_to, declared and filled. */
  function Replacement(w: World, from: ValueId): (r: World)
    requires Good(w) && Known(w, from) && w.values[from].data != Null
    ensures Good(r) && r.values.Keys == w.values.Keys + {w.nextValue} && r.nextValue == w.nextValue + 1
    ensures w.nextValue !in w.values
    ensures forall id | id in w.values :: r.values[id] == w.values[id]
  {
    DeclareGood(w);
    CopyIntoGood(Declare(w), w.nextValue, from);
    CopyInto(Declare(w), w.nextValue, from)
  }

  /** Moving the filled replacement into the target of a copy. */
  function Replaced(w: World, from: ValueId, out: ValueId): (r: World)
    requires Good(w) && Known(w, from) && Known(w, out) && w.values[from].data != Null
    ensures Good(r) && Known(r, w.nextValue) && r.nextValue == w.nextValue + 1
    ensures r.values.Keys == w.values.Keys + {w.nextValue} && w.nextValue !in w.values
  {
    MoveAssign(Replacement(w, from), out, w.nextValue)
  }

  /** The successful part of try_copy_to: fill the replacement, move it into the
      target, let the replacement go. */
  function CopyThrough(w: World, from: ValueId, out: ValueId): (r: World)
    requires Good(w) && Known(w, from) && Known(w, out) && w.values[from].data != Null
    ensures Good(r) && r.values.Keys == w.values.Keys && r.nextValue == w.nextValue + 1
  {
    AddThenRemove(w.values.Keys, w.nextValue);
    EndOfLife(Replaced(w, from, out), w.nextValue)
  }

  lemma AddThenRemove(s: set<ValueId>, id: ValueId)
    ensures id !in s ==> s + {id} - {id} == s
  {
  }

  /** try_copy_to, with its local replacement declared and destroyed. */
  function TryCopyTo(w: World, from: ValueId, out: ValueId): (r: Result)
    requires Good(w) && Known(w, from) && Known(w, out)
    ensures r.Done? && Good(r.world) && r.world.values.Keys == w.values.Keys
    ensures r.world.nextValue >= w.nextValue
  {
    if w.values[from].data == Null then
      ResetGood(w, out);
      Done(Reset(w, out), Success)
    else if !Copyable(w.values[from]) then Done(w, NonCopyableValue)
    else Done(CopyThrough(w, from, out), Success)
  }

  /** operator=(const Value&), which aborts when the copy fails. */
  function CopyAssign(w: World, to: ValueId, from: ValueId): (r: Result)
    requires Good(w) && Known(w, to) && Known(w, from)
    ensures r.Done? ==> Good(r.world) && r.error == Success
  {
    if to == from then Done(w, Success)
    else
      DeclareGood(w);
      var tmp := w.nextValue;
      var copied := TryCopyTo(Declare(w), from, tmp);
      if copied.error != Success then Aborted
      else Done(EndOfLife(MoveAssign(copied.world, to, tmp), tmp), Success)
  }

  /** Value(const Value&). */
  function CopyOf(w: World, from: ValueId): (r: Result)
    requires Good(w) && Known(w, from)
    ensures r.Done? ==> Good(r.world) && r.error == Success
  {
    DeclareGood(w);
    var copied := TryCopyTo(Declare(w), from, w.nextValue);
    if copied.error != Success then Aborted else copied
  }

  // ----- Runs -----

  datatype Call =
    | CallDefault
    | CallFromObject(traits: Traits, content: int)
    | CallRefer(traits: Traits, policy: Policy, target: Address)
    | CallCopyOf(from: ValueId)
    | CallMoveOf(from: ValueId)
    | CallCopyAssign(to: ValueId, from: ValueId)
    | CallMoveAssign(to: ValueId, from: ValueId)
    | CallTryCopyTo(from: ValueId, to: ValueId)
    | CallEndOfLife(id: ValueId)

  ghost predicate Callable(w: World, c: Call) {
    match c
    case CallDefault => true
    case CallFromObject(_, _) => true
    case CallRefer(_, policy, target) => policy != Owned && target != Null
    case CallCopyOf(from) => Known(w, from)
    case CallMoveOf(from) => Known(w, from)
    case CallCopyAssign(to, from) => Known(w, to) && Known(w, from)
    case CallMoveAssign(to, from) => Known(w, to) && Known(w, from)
    case CallTryCopyTo(from, to) => Known(w, from) && Known(w, to)
    case CallEndOfLife(id) => Known(w, id)
  }

  function Step(w: World, c: Call): (r: Result)
    requires Good(w) && Callable(w, c)
    ensures r.Done? ==> Good(r.world)
  {
    match c
    case CallDefault => DeclareGood(w); Done(Declare(w), Success)
    case CallFromObject(t, content) => Done(FromObject(w, t, content), Success)
    case CallRefer(t, policy, target) => Done(Refer(w, t, policy, target), Success)
    case CallCopyOf(from) => CopyOf(w, from)
    case CallMoveOf(from) => Done(MoveOf(w, from), Success)
    case CallCopyAssign(to, from) => CopyAssign(w, to, from)
    case CallMoveAssign(to, from) => Done(MoveAssign(w, to, from), Success)
    case CallTryCopyTo(from, to) => TryCopyTo(w, from, to)
    case CallEndOfLife(id) => Done(EndOfLife(w, id), Success)
  }

  /** Stopped: a call aborted, or named a value that does not exist. */
  datatype Ending = Reached(world: World) | Stopped

  /** Over any run, live objects and owning values stay one to one and every
      object is live or was destroyed exactly once. */
  ghost function Run(calls: seq<Call>): (e: Ending)
    ensures e.Reached? ==> Good(e.world)
  {
    if calls == [] then
      StartGood();
      Reached(START)
    else
      match Run(calls[..|calls| - 1])
      case Stopped => Stopped
      case Reached(w) =>
        if !Callable(w, calls[|calls| - 1]) then Stopped
        else
          match Step(w, calls[|calls| - 1])
          case Aborted => Stopped
          case Done(x, _) => Reached(x)
  }

  lemma StartGood()
    ensures Good(START)
  {
    assert forall s: nat :: !SerialLive(START, s);
  }

  /** When the last value is gone nothing is live: each constructed object has been
      destroyed exactly once. */
  lemma NothingLeaks(calls: seq<Call>)
    requires Run(calls).Reached? && Run(calls).world.values == map[]
    ensures Run(calls).world.live == map[]
    ensures var w := Run(calls).world; forall s: nat :: w.destroyed[s] == if s < w.nextSerial then 1 else 0
  {
    var w := Run(calls).world;
    assert forall a | a in w.live :: HasOwner(w, a);
    assert w.live.Keys == {};
    assert forall s: nat :: !SerialLive(w, s);
  }

  /** Ending a borrowing or empty value's life touches no object. */
  lemma BorrowerEndsQuietly(w: World, id: ValueId)
    requires Good(w) && Known(w, id) && !w.values[id].ops.Owning?
    ensures EndOfLife(w, id).live == w.live && EndOfLife(w, id).destroyed == w.destroyed
  {
  }

  /** Ending an owning value's life destroys its object and nothing else. */
  lemma OwnerEndsItsObject(w: World, id: ValueId)
    requires Good(w) && Known(w, id) && w.values[id].ops.Owning?
    ensures w.values[id].data in w.live
    ensures EndOfLife(w, id).live == w.live - {w.values[id].data}
    ensures EndOfLife(w, id).destroyed == w.destroyed + multiset{w.live[w.values[id].data].serial}
  {
    assert ValueOk(w, id, w.values[id]);
  }

  // ----- Copies -----

  /** A copy fails exactly when the value owns an object that cannot be copied,
      and then nothing at all has changed. */
  lemma FailedCopyChangesNothing(w: World, from: ValueId, out: ValueId)
    requires Good(w) && Known(w, from) && Known(w, out)
    ensures var r := TryCopyTo(w, from, out);
            && (r.error != Success <==> w.values[from].ops.Owning? && !w.values[from].ops.traits.copyable)
            && (r.error != Success ==> r == Done(w, NonCopyableValue))
  {
    assert ValueOk(w, from, w.values[from]);
  }

  /** The content behind a value that owns an object. */
  function ContentOf(w: World, v: Value): Option<int> {
    if v.ops.Owning? && v.data in w.live then Some(w.live[v.data].content) else None
  }

  /** u looks like v: the same fields apart from where an owned object lives, and
      an object of equal content. */
  ghost predicate Alike(w: World, v: Value, x: World, u: Value) {
    && u.(data := v.data) == v && ContentOf(x, u) == ContentOf(w, v)
    && (!v.ops.Owning? ==> u.data == v.data)
  }

  /** The object that a value owns. */
  function ObjectOf(w: World, v: Value): Option<Object> {
    if v.ops.Owning? && v.data in w.live then Some(w.live[v.data]) else None
  }

  /** Everything that other values own is still there, the very same objects. */
  ghost predicate Undisturbed(w: World, x: World, touched: set<ValueId>) {
    forall id | id in w.values && id !in touched ::
      id in x.values && x.values[id] == w.values[id] && ObjectOf(x, w.values[id]) == ObjectOf(w, w.values[id])
  }

  lemma ResetUndisturbed(w: World, id: ValueId)
    requires Good(w) && Known(w, id)
    ensures Destroyable(w, id) && Undisturbed(w, Reset(w, id), {id})
  {
    assert forall o | o in w.values :: ValueOk(w, o, w.values[o]);
  }

  lemma MoveFromUndisturbed(w: World, to: ValueId, from: ValueId)
    requires Good(w) && Known(w, to) && Known(w, from) && to != from && w.values[to] == EMPTY
    ensures Movable(w, to, from) && Undisturbed(w, MoveFrom(w, to, from), {to, from})
    ensures Alike(w, w.values[from], MoveFrom(w, to, from), MoveFrom(w, to, from).values[to])
  {
    assert ValueOk(w, from, w.values[from]);
    GoodOwnersLive(w);
    if w.values[from].isInline {
      BufferFree(w, to);
      OthersElsewhere(w, from);
      MoveInlineUndisturbed(w, to, from);
    } else {
      MoveFromPointerIs(w, to, from);
    }
  }

  /** No other value owns what this one owns. */
  lemma OthersElsewhere(w: World, from: ValueId)
    requires Good(w) && Known(w, from) && w.values[from].ops.Owning?
    ensures forall o | o in w.values && o != from && w.values[o].ops.Owning? :: w.values[o].data != w.values[from].data
  {
  }

  lemma MoveInlineUndisturbed(w: World, to: ValueId, from: ValueId)
    requires OwnersLive(w) && Known(w, to) && Known(w, from) && to != from && w.values[to] == EMPTY
    requires w.values[from].isInline && w.values[from].ops.Owning? && w.values[from].ops.traits.usesBuffer
    requires w.values[from].data == Inline(from) && Inline(to) !in w.live
    requires forall o | o in w.values && o != from && w.values[o].ops.Owning? :: w.values[o].data != Inline(from)
    ensures Movable(w, to, from) && Undisturbed(w, MoveFrom(w, to, from), {to, from})
    ensures Alike(w, w.values[from], MoveFrom(w, to, from), MoveFrom(w, to, from).values[to])
  {
  }

  /** Move assignment hands over exactly what the source held and leaves every
      third value alone. */
  lemma MoveHandsOver(w: World, to: ValueId, from: ValueId)
    requires Good(w) && Known(w, to) && Known(w, from) && to != from
    ensures var x := MoveAssign(w, to, from);
            Alike(w, w.values[from], x, x.values[to]) && Undisturbed(w, x, {to, from}) && x.values[from] == EMPTY
  {
    MoveAssignGood(w, to, from);
    ResetGood(w, to);
    ResetUndisturbed(w, to);
    MoveFromUndisturbed(Reset(w, to), to, from);
  }

  /** Every owner's object is alive. */
  ghost predicate OwnersLive(w: World) {
    forall id | id in w.values && w.values[id].ops.Owning? :: w.values[id].data in w.live
  }

  lemma GoodOwnersLive(w: World)
    requires Good(w)
    ensures OwnersLive(w)
  {
    assert forall o | o in w.values :: ValueOk(w, o, w.values[o]);
  }

  lemma AdoptUndisturbed(w: World, to: ValueId, v: Value, content: int)
    requires OwnersLive(w) && v.data !in w.live
    ensures Undisturbed(w, Adopt(w, to, v, content), {to})
  {
  }

  lemma CopyIntoAlike(w: World, to: ValueId, from: ValueId)
    requires OwnersLive(w) && Known(w, to) && Known(w, from) && to != from && w.values[from].data != Null
    requires Inline(to) !in w.live && Heap(w.nextCell) !in w.live
    ensures var x := CopyInto(w, to, from);
            Alike(w, w.values[from], x, x.values[to]) && Undisturbed(w, x, {to})
  {
    var other := w.values[from];
    if other.ops.Owning? {
      var v := other.(data := if other.ops.traits.usesBuffer then Inline(to) else Heap(w.nextCell));
      assert CopyInto(w, to, from) == Adopt(w, to, v, w.live[other.data].content);
      AdoptUndisturbed(w, to, v, w.live[other.data].content);
    }
  }

  lemma ReplacementAlike(w: World, from: ValueId)
    requires Good(w) && Known(w, from) && w.values[from].data != Null && Copyable(w.values[from])
    ensures var x := Replacement(w, from);
            Alike(w, w.values[from], x, x.values[w.nextValue]) && Undisturbed(w, x, {})
  {
    DeclareGood(w);
    GoodOwnersLive(Declare(w));
    CopyIntoAlike(Declare(w), w.nextValue, from);
    DeclareUndisturbed(w, Replacement(w, from));
  }

  lemma DeclareUndisturbed(w: World, x: World)
    requires w.nextValue !in w.values && Undisturbed(Declare(w), x, {w.nextValue})
    ensures Undisturbed(w, x, {})
  {
    assert forall id | id in w.values :: id in Declare(w).values && Declare(w).values[id] == w.values[id];
  }

  lemma EndUndisturbed(w: World, id: ValueId)
    requires Good(w) && Known(w, id)
    ensures Undisturbed(w, EndOfLife(w, id), {id})
  {
    ResetUndisturbed(w, id);
  }

  /** A successful copy gives the target an equal object of its own, or the same
      borrowed address, and leaves the source and all other values alone. */
  lemma CopyIsFaithful(w: World, from: ValueId, out: ValueId)
    requires Good(w) && Known(w, from) && Known(w, out)
    requires TryCopyTo(w, from, out).error == Success
    ensures var x := TryCopyTo(w, from, out).world;
            Alike(w, w.values[from], x, x.values[out]) && Undisturbed(w, x, {out})
  {
    if w.values[from].data == Null {
      ResetGood(w, out);
      ResetUndisturbed(w, out);
      assert ValueOk(w, from, w.values[from]);
    } else {
      var tmp, w1 := w.nextValue, Replacement(w, from);
      ReplacementAlike(w, from);
      var w2 := MoveAssign(w1, out, tmp);
      MoveHandsOver(w1, out, tmp);
      EndUndisturbed(w2, tmp);
    }
  }
}
