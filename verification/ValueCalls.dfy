/** What each operation of include/cmm/value.hpp answers and leaves, call by call and
    field by field. */
module ValueCalls {
  import opened Core
  import opened Values
  import opened ValueRuns
  import opened ValueStorage

  /** Nothing is destroyed and nothing made. */
  ghost predicate SameObjects(w: World, x: World) {
    x.live == w.live && x.destroyed == w.destroyed && x.nextSerial == w.nextSerial
  }

  /** The value id is new or another one; every further value is as it was. */
  ghost predicate OnlyValue(w: World, x: World, id: ValueId) {
    x.values.Keys == w.values.Keys + {id} && forall o | o in w.values && o != id :: x.values[o] == w.values[o]
  }

  /** Value(): a new empty value. */
  lemma DefaultDoes(w: World)
    requires Good(w)
    ensures var r := Step(w, CallDefault);
            && r.Done? && r.error == Success && w.nextValue !in w.values && SameObjects(w, r.world)
            && r.world.values == w.values[w.nextValue :=
                 Value(INVALID_INFO, INVALID_INFO, false, Owned, Null, NoOps, false)]
  {
    DeclareGood(w);
  }

  /** Value(T&&): a new value that owns a new object of that content, in its buffer or in a
      new heap cell as T demands, with T's ids. */
  lemma FromObjectDoes(w: World, t: Traits, content: int)
    requires Good(w)
    ensures var r := Step(w, CallFromObject(t, content)); var id := w.nextValue;
            && r.Done? && r.error == Success && id !in w.values
            && r.world.values.Keys == w.values.Keys + {id}
            && (forall o | o in w.values :: r.world.values[o] == w.values[o])
            && var v := r.world.values[id];
               && v.typeId == t.typeId && v.pointeeId == t.pointeeId && v.pointeeConst == t.pointeeConst
               && v.policy == Owned && v.ops == Owning(t) && v.isInline == t.usesBuffer
               && (if t.usesBuffer then v.data == Inline(id) else v.data.Heap?)
               && v.data !in w.live && r.world.live == w.live[v.data := Object(w.nextSerial, content)]
               && r.world.destroyed == w.destroyed && r.world.nextSerial == w.nextSerial + 1
  {
    DeclaredFree(w);
  }

  /** ref, cref and rref: a new value that borrows the address under the policy, with the
      ids of T. */
  lemma ReferDoes(w: World, t: Traits, policy: Policy, target: Address)
    requires Good(w) && policy != Owned && target != Null
    ensures var r := Step(w, CallRefer(t, policy, target));
            && r.Done? && r.error == Success && w.nextValue !in w.values && SameObjects(w, r.world)
            && r.world.values == w.values[w.nextValue :=
                 Value(t.typeId, t.pointeeId, t.pointeeConst, policy, target, Borrowing, false)]
  {
    DeclareGood(w);
  }

  /** The value whose fields and object a move hands over. */
  ghost predicate HandedOver(w: World, v: Value, x: World, u: Value) {
    && Alike(w, v, x, u)
    && (!v.isInline ==> u == v && ObjectOf(x, u) == ObjectOf(w, v))
  }

  /** The destructor runs of moving v away: an inline object is destroyed where it was. */
  function MovedAway(w: World, v: Value): multiset<nat> {
    if v.isInline && v.data in w.live then multiset{w.live[v.data].serial} else multiset{}
  }

  /** The destructor runs of resetting v. */
  function ResetAway(w: World, v: Value): multiset<nat> {
    if v.ops.Owning? && v.data in w.live then multiset{w.live[v.data].serial} else multiset{}
  }

  lemma MoveFromDestroys(w: World, to: ValueId, from: ValueId)
    requires Good(w) && Known(w, to) && Known(w, from) && to != from && w.values[to] == EMPTY
    ensures Movable(w, to, from)
    ensures var x := MoveFrom(w, to, from);
            && HandedOver(w, w.values[from], x, x.values[to])
            && x.destroyed == w.destroyed + MovedAway(w, w.values[from])
  {
    assert ValueOk(w, from, w.values[from]);
    MoveFromUndisturbed(w, to, from);
    if w.values[from].isInline {
      BufferFree(w, to);
    } else {
      MoveFromPointerIs(w, to, from);
    }
  }

  lemma ResetDestroys(w: World, id: ValueId)
    requires Good(w) && Known(w, id)
    ensures Destroyable(w, id) && Reset(w, id).destroyed == w.destroyed + ResetAway(w, w.values[id])
  {
    assert ValueOk(w, id, w.values[id]);
  }

  lemma MoveIntoNew(w: World, d: World, to: ValueId, from: ValueId)
    requires Good(d) && Known(w, from) && to !in w.values && d.values == w.values[to := EMPTY] && d.live == w.live
    ensures Movable(d, to, from)
    ensures var x := MoveFrom(d, to, from);
            && Known(x, to) && HandedOver(w, w.values[from], x, x.values[to])
            && x.values == w.values[to := x.values[to]][from := EMPTY]
            && x.destroyed == d.destroyed + MovedAway(w, w.values[from])
  {
    MoveFromDestroys(d, to, from);
    MoveIntoDeclared(w, d, to, from);
    Overwrite(w.values, to, EMPTY, MoveFrom(d, to, from).values[to]);
  }

  /** Value(Value&&): a new value takes over what the source held, and the source is
      empty. */
  lemma MoveOfDoes(w: World, from: ValueId)
    requires Good(w) && Known(w, from)
    ensures var r := Step(w, CallMoveOf(from)); var id := w.nextValue;
            && r.Done? && r.error == Success && id !in w.values && id in r.world.values
            && r.world.values == w.values[id := r.world.values[id]][from := EMPTY]
            && HandedOver(w, w.values[from], r.world, r.world.values[id])
            && r.world.destroyed == w.destroyed + MovedAway(w, w.values[from])
  {
    DeclareGood(w);
    MoveIntoNew(w, Declare(w), w.nextValue, from);
  }

  lemma ResetKeeps(w: World, to: ValueId, from: ValueId)
    requires Good(w) && Known(w, to) && Known(w, from) && to != from
    ensures Destroyable(w, to) && Good(Reset(w, to)) && Reset(w, to).values == w.values[to := EMPTY]
    ensures ObjectOf(Reset(w, to), w.values[from]) == ObjectOf(w, w.values[from])
    ensures MovedAway(Reset(w, to), w.values[from]) == MovedAway(w, w.values[from])
  {
    ResetGood(w, to);
    ResetUndisturbed(w, to);
    assert ValueOk(w, from, w.values[from]) && ValueOk(w, to, w.values[to]);
  }

  lemma MoveAssignDestroys(w: World, to: ValueId, from: ValueId)
    requires Good(w) && Known(w, to) && Known(w, from) && to != from
    ensures var x := MoveAssign(w, to, from);
            && HandedOver(w, w.values[from], x, x.values[to])
            && x.destroyed == w.destroyed + ResetAway(w, w.values[to]) + MovedAway(w, w.values[from])
  {
    MoveAssignGood(w, to, from);
    ResetKeeps(w, to, from);
    ResetDestroys(w, to);
    MoveFromDestroys(Reset(w, to), to, from);
    MoveHandsOver(w, to, from);
  }

  /** operator=(Value&&): the target's object is destroyed, the source handed over and
      left empty; assigning a value to itself does nothing. */
  lemma MoveAssignDoes(w: World, to: ValueId, from: ValueId)
    requires Good(w) && Known(w, to) && Known(w, from)
    ensures var r := Step(w, CallMoveAssign(to, from));
            && r.Done? && r.error == Success
            && (to == from ==> r.world == w)
            && (to != from ==>
                  && to in r.world.values && r.world.values == w.values[to := r.world.values[to]][from := EMPTY]
                  && HandedOver(w, w.values[from], r.world, r.world.values[to])
                  && r.world.destroyed
                     == w.destroyed + ResetAway(w, w.values[to]) + MovedAway(w, w.values[from]))
  {
    if to != from {
      MoveAssignDestroys(w, to, from);
    }
  }

  /** ~Value: the value is gone and with it the object it owned, if any. */
  lemma EndOfLifeDoes(w: World, id: ValueId)
    requires Good(w) && Known(w, id)
    ensures var r := Step(w, CallEndOfLife(id)); var v := w.values[id];
            && r.Done? && r.error == Success && r.world.values == w.values - {id}
            && r.world.live == (if v.ops.Owning? then w.live - {v.data} else w.live)
            && r.world.destroyed == w.destroyed + ResetAway(w, v)
            && r.world.nextSerial == w.nextSerial
  {
    assert ValueOk(w, id, w.values[id]);
  }

  /** The value owns an object whose type has no copy constructor. */
  predicate Uncopyable(v: Value) {
    v.ops.Owning? && !v.ops.traits.copyable
  }

  /** try_copy_to: refused exactly for an owner of an uncopyable object, and then nothing
      changes.  Otherwise the target holds an equal object of its own, or the same borrowed
      address, and all other values are as before. */
  lemma TryCopyToDoes(w: World, from: ValueId, out: ValueId)
    requires Good(w) && Known(w, from) && Known(w, out)
    ensures var r := Step(w, CallTryCopyTo(from, out));
            && r.Done?
            && (Uncopyable(w.values[from]) ==> r == Done(w, NonCopyableValue))
            && (!Uncopyable(w.values[from]) ==>
                  && r.error == Success && OnlyValue(w, r.world, out)
                  && Alike(w, w.values[from], r.world, r.world.values[out]))
  {
    FailedCopyChangesNothing(w, from, out);
    if !Uncopyable(w.values[from]) {
      CopyIsFaithful(w, from, out);
    }
  }

  lemma DeclaredUncopyable(w: World, from: ValueId)
    requires Good(w) && Known(w, from)
    ensures Good(Declare(w)) && w.nextValue in Declare(w).values
    ensures TryCopyTo(Declare(w), from, w.nextValue).error != Success <==> Uncopyable(w.values[from])
  {
    DeclareGood(w);
    FailedCopyChangesNothing(Declare(w), from, w.nextValue);
  }

  /** Value(const Value&): aborts exactly where try_copy_to refuses. */
  lemma CopyOfDoes(w: World, from: ValueId)
    requires Good(w) && Known(w, from)
    ensures var r := Step(w, CallCopyOf(from)); var id := w.nextValue;
            && (r.Aborted? <==> Uncopyable(w.values[from]))
            && (r.Done? ==>
                  && r.error == Success && id !in w.values && OnlyValue(w, r.world, id)
                  && Alike(w, w.values[from], r.world, r.world.values[id]))
  {
    DeclaredUncopyable(w, from);
    if CopyOf(w, from).Done? {
      CopyOfAlike(w, from);
    }
  }

  lemma CopyAssignAborts(w: World, to: ValueId, from: ValueId)
    requires Good(w) && Known(w, to) && Known(w, from) && to != from
    ensures CopyAssign(w, to, from).Aborted? <==> Uncopyable(w.values[from])
  {
    DeclaredUncopyable(w, from);
  }

  lemma CopyAssignAlikeTo(w: World, to: ValueId, from: ValueId, y: World)
    requires Good(w) && Known(w, to) && Known(w, from) && to != from
    requires CopyAssign(w, to, from) == Done(y, Success)
    ensures OnlyValue(w, y, to) && Alike(w, w.values[from], y, y.values[to])
  {
    CopyAssignIs(w, to, from);
    CopyOfAlike(w, from);
    CopyAssignAlike(w, CopyOf(w, from).world, to, from, w.nextValue);
  }

  /** What copy assignment to another value answers. */
  ghost predicate Copied(w: World, to: ValueId, from: ValueId, r: Result)
    requires Known(w, from)
  {
    && (r.Aborted? <==> Uncopyable(w.values[from]))
    && (r.Done? ==>
          && r.error == Success && Known(r.world, to) && OnlyValue(w, r.world, to)
          && Alike(w, w.values[from], r.world, r.world.values[to]))
  }

  lemma CopyAssignAnswers(w: World, to: ValueId, from: ValueId, r: Result)
    requires Good(w) && Known(w, to) && Known(w, from) && to != from && r == CopyAssign(w, to, from)
    ensures Copied(w, to, from, r)
  {
    CopyAssignAborts(w, to, from);
    if r.Done? {
      CopyAssignSucceeds(w, to, from);
      CopyAssignAlikeTo(w, to, from, r.world);
    }
  }

  lemma CopyAssignSucceeds(w: World, to: ValueId, from: ValueId)
    requires Good(w) && Known(w, to) && Known(w, from)
    ensures CopyAssign(w, to, from).Done? ==> CopyAssign(w, to, from).error == Success
  {
  }

  lemma CopyAssignStep(w: World, to: ValueId, from: ValueId, c: Call)
    requires Good(w) && Callable(w, c) && c == CallCopyAssign(to, from)
    ensures Step(w, c) == CopyAssign(w, to, from)
  {
  }

  lemma SelfAssigned(w: World, id: ValueId)
    requires Good(w) && Known(w, id)
    ensures CopyAssign(w, id, id) == Done(w, Success)
  {
  }

  /** operator=(const Value&): aborts exactly where try_copy_to refuses, unless a value is
      assigned to itself, which does nothing. */
  lemma CopyAssignDoes(w: World, to: ValueId, from: ValueId)
    requires Good(w) && Known(w, to) && Known(w, from)
    ensures to == from ==> Step(w, CallCopyAssign(to, from)) == Done(w, Success)
    ensures to != from ==> Copied(w, to, from, Step(w, CallCopyAssign(to, from)))
  {
    CopyAssignStep(w, to, from, CallCopyAssign(to, from));
    if to == from {
      SelfAssigned(w, to);
    } else {
      CopyAssignAnswers(w, to, from, CopyAssign(w, to, from));
    }
  }

  lemma AlikeTwice(w: World, v: Value, x: World, u: Value, y: World, t: Value)
    requires Alike(w, v, x, u) && Alike(x, u, y, t)
    ensures Alike(w, v, y, t)
  {
  }

  lemma EndKeepsAlike(w: World, v: Value, x: World, to: ValueId, tmp: ValueId)
    requires Good(x) && Known(x, to) && Known(x, tmp) && to != tmp && Alike(w, v, x, x.values[to])
    ensures Alike(w, v, EndOfLife(x, tmp), EndOfLife(x, tmp).values[to])
  {
    EndUndisturbed(x, tmp);
  }

  lemma CopyAssignOnly(w: World, x: World, to: ValueId, tmp: ValueId, y: World, z: World)
    requires Good(x) && Known(w, to) && tmp !in w.values && Known(x, to) && Known(x, tmp) && OnlyValue(w, x, tmp)
    requires y == MoveAssign(x, to, tmp) && z == EndOfLife(y, tmp)
    ensures OnlyValue(w, z, to)
  {
    MoveHandsOver(x, to, tmp);
    EndUndisturbed(y, tmp);
  }

  lemma CopyAssignAlike(w: World, x: World, to: ValueId, from: ValueId, tmp: ValueId)
    requires Good(x) && Known(w, to) && Known(w, from) && tmp !in w.values && Known(x, tmp) && to != tmp
    requires OnlyValue(w, x, tmp) && Alike(w, w.values[from], x, x.values[tmp])
    ensures var y := EndOfLife(MoveAssign(x, to, tmp), tmp);
            OnlyValue(w, y, to) && Alike(w, w.values[from], y, y.values[to])
  {
    var y := MoveAssign(x, to, tmp);
    CopyAssignOnly(w, x, to, tmp, y, EndOfLife(y, tmp));
    CopyAssignContent(w, w.values[from], x, to, tmp, y);
  }

  lemma CopyAssignContent(w: World, v: Value, x: World, to: ValueId, tmp: ValueId, y: World)
    requires Good(x) && Known(x, to) && Known(x, tmp) && to != tmp && y == MoveAssign(x, to, tmp)
    requires Alike(w, v, x, x.values[tmp])
    ensures Alike(w, v, EndOfLife(y, tmp), EndOfLife(y, tmp).values[to])
  {
    MoveHandsOver(x, to, tmp);
    AlikeTwice(w, v, x, x.values[tmp], y, y.values[to]);
    EndKeepsAlike(w, v, y, to, tmp);
  }
}
