/** What one call on values does to the storage of all of them: which objects it may
    destroy, and when a value's inline flag stops telling the truth. */
module ValueStorage {
  import opened Core
  import opened Values
  import opened ValueRuns

  // ----- Which objects a call may destroy -----

  /** The values whose object a call may replace or take. */
  function Touched(c: Call): set<ValueId> {
    match c
    case CallCopyAssign(to, _) => {to}
    case CallMoveAssign(to, from) => {to, from}
    case CallMoveOf(from) => {from}
    case CallTryCopyTo(_, to) => {to}
    case CallEndOfLife(id) => {id}
    case _ => {}
  }

  lemma UndisturbedTwice(w: World, x: World, y: World, a: set<ValueId>, b: set<ValueId>)
    requires Undisturbed(w, x, a) && Undisturbed(x, y, b)
    ensures Undisturbed(w, y, a + b)
  {
    forall id | id in w.values && id !in a + b
      ensures id in y.values && y.values[id] == w.values[id] && ObjectOf(y, w.values[id]) == ObjectOf(w, w.values[id])
    {
      assert id in x.values && x.values[id] == w.values[id];
    }
  }

  /** A fresh id is no value of the world before. */
  lemma UndisturbedFresh(w: World, x: World, touched: set<ValueId>, id: ValueId)
    requires id !in w.values && Undisturbed(w, x, touched + {id})
    ensures Undisturbed(w, x, touched)
  {
  }

  lemma DeclareDisturbsNothing(w: World)
    requires Good(w)
    ensures Undisturbed(w, Declare(w), {})
  {
    DeclareGood(w);
  }

  lemma FromObjectDisturbsNothing(w: World, t: Traits, content: int)
    requires Good(w)
    ensures Undisturbed(w, FromObject(w, t, content), {})
  {
    DeclaredFree(w);
    var id, w1 := w.nextValue, Declare(w);
    var v := OwnedValue(t, if t.usesBuffer then Inline(id) else Heap(w1.nextCell));
    GoodOwnersLive(w1);
    AdoptUndisturbed(w1, id, v, content);
    DeclareUndisturbed(w, FromObject(w, t, content));
  }

  lemma ReferDisturbsNothing(w: World, t: Traits, policy: Policy, target: Address)
    requires Good(w) && policy != Owned && target != Null
    ensures Undisturbed(w, Refer(w, t, policy, target), {})
  {
    DeclareGood(w);
  }

  lemma MoveOfDisturbs(w: World, from: ValueId)
    requires Good(w) && Known(w, from)
    ensures Undisturbed(w, MoveOf(w, from), {from})
  {
    DeclareGood(w);
    MoveFromUndisturbed(Declare(w), w.nextValue, from);
    DeclareDisturbsNothing(w);
    UndisturbedTwice(w, Declare(w), MoveOf(w, from), {}, {w.nextValue, from});
    assert {} + {w.nextValue, from} == {from} + {w.nextValue};
    UndisturbedFresh(w, MoveOf(w, from), {from}, w.nextValue);
  }

  lemma MoveAssignDisturbs(w: World, to: ValueId, from: ValueId)
    requires Good(w) && Known(w, to) && Known(w, from)
    ensures Undisturbed(w, MoveAssign(w, to, from), {to, from})
  {
    if to != from {
      MoveHandsOver(w, to, from);
    }
  }

  lemma CopyThroughDisturbs(w: World, from: ValueId, out: ValueId)
    requires Good(w) && Known(w, from) && Known(w, out) && w.values[from].data != Null && Copyable(w.values[from])
    ensures Undisturbed(w, CopyThrough(w, from, out), {out})
  {
    ReplacementAlike(w, from);
    AssignThroughDisturbs(w, Replacement(w, from), out, w.nextValue);
  }

  lemma TryCopyToDisturbs(w: World, from: ValueId, out: ValueId)
    requires Good(w) && Known(w, from) && Known(w, out)
    ensures Undisturbed(w, TryCopyTo(w, from, out).world, {out})
  {
    if w.values[from].data == Null {
      ResetUndisturbed(w, out);
    } else if Copyable(w.values[from]) {
      CopyThroughDisturbs(w, from, out);
    }
  }

  lemma CopyOfDisturbsNothing(w: World, from: ValueId)
    requires Good(w) && Known(w, from) && CopyOf(w, from).Done?
    ensures Undisturbed(w, CopyOf(w, from).world, {})
  {
    DeclareGood(w);
    TryCopyToDisturbs(Declare(w), from, w.nextValue);
    DeclareUndisturbed(w, CopyOf(w, from).world);
  }

  lemma CopyAssignDisturbs(w: World, to: ValueId, from: ValueId)
    requires Good(w) && Known(w, to) && Known(w, from) && CopyAssign(w, to, from).Done?
    ensures Undisturbed(w, CopyAssign(w, to, from).world, {to})
  {
    if to != from {
      DeclareGood(w);
      var tmp, w1 := w.nextValue, TryCopyTo(Declare(w), from, w.nextValue).world;
      CopyOfDisturbsNothing(w, from);
      AssignThroughDisturbs(w, w1, to, tmp);
    }
  }

  /** The rest of a copy assignment: move the temporary in, then let it go. */
  lemma AssignThroughDisturbs(w: World, w1: World, to: ValueId, tmp: ValueId)
    requires Good(w1) && Known(w, to) && tmp !in w.values && Known(w1, to) && Known(w1, tmp)
    requires Undisturbed(w, w1, {})
    ensures Undisturbed(w, EndOfLife(MoveAssign(w1, to, tmp), tmp), {to})
  {
    var w2 := MoveAssign(w1, to, tmp);
    MoveAssignDisturbs(w1, to, tmp);
    EndUndisturbed(w2, tmp);
    ThroughTemporary(w, w1, w2, EndOfLife(w2, tmp), to, tmp);
  }

  lemma ThroughTemporary(w: World, w1: World, w2: World, w3: World, to: ValueId, tmp: ValueId)
    requires tmp !in w.values
    requires Undisturbed(w, w1, {}) && Undisturbed(w1, w2, {to, tmp}) && Undisturbed(w2, w3, {tmp})
    ensures Undisturbed(w, w3, {to})
  {
    UndisturbedTwice(w, w1, w2, {}, {to, tmp});
    UndisturbedTwice(w, w2, w3, {} + {to, tmp}, {tmp});
    assert {} + {to, tmp} + {tmp} == {to} + {tmp};
    UndisturbedFresh(w, w3, {to}, tmp);
  }

  /** Values that a call does not touch keep their fields and their objects. */
  lemma StepUndisturbed(w: World, c: Call)
    requires Good(w) && Callable(w, c) && Step(w, c).Done?
    ensures Undisturbed(w, Step(w, c).world, Touched(c))
  {
    match c
    case CallDefault => DeclareDisturbsNothing(w);
    case CallFromObject(t, content) => FromObjectDisturbsNothing(w, t, content);
    case CallRefer(t, policy, target) => ReferDisturbsNothing(w, t, policy, target);
    case CallCopyOf(from) => CopyOfDisturbsNothing(w, from);
    case CallMoveOf(from) => MoveOfDisturbs(w, from);
    case CallCopyAssign(to, from) => CopyAssignDisturbs(w, to, from);
    case CallMoveAssign(to, from) => MoveAssignDisturbs(w, to, from);
    case CallTryCopyTo(from, to) => TryCopyToDisturbs(w, from, to);
    case CallEndOfLife(id) => EndUndisturbed(w, id);
  }

  /** An object dies only by a call that touches the value owning it: whatever any
      number of other values borrow it. */
  lemma DiesWithItsOwner(w: World, c: Call, a: Address)
    requires Good(w) && Callable(w, c) && Step(w, c).Done? && a in w.live
    ensures var x := Step(w, c).world;
            || (a in x.live && x.live[a] == w.live[a])
            || (exists id :: id in Touched(c) && id in w.values && Owns(w.values[id], a))
  {
    StepUndisturbed(w, c);
    var id :| id in w.values && Owns(w.values[id], a);
    if id !in Touched(c) {
      assert ObjectOf(w, w.values[id]) == Some(w.live[a]);
    }
  }

  /** A call that touches borrowing and empty values only destroys no object,
      wherever the borrowed addresses point. */
  lemma BorrowedNeverDestroyed(w: World, c: Call)
    requires Good(w) && Callable(w, c) && Step(w, c).Done?
    requires forall id | id in Touched(c) && id in w.values :: !w.values[id].ops.Owning?
    ensures forall a | a in w.live :: a in Step(w, c).world.live && Step(w, c).world.live[a] == w.live[a]
  {
    forall a | a in w.live ensures a in Step(w, c).world.live && Step(w, c).world.live[a] == w.live[a] {
      DiesWithItsOwner(w, c, a);
    }
  }

  // ----- The inline flag -----

  /** is_inline_ says whether data is in the value's own buffer. */
  ghost predicate FlagRight(w: World, id: ValueId)
    requires id in w.values
  {
    w.values[id].isInline <==> w.values[id].data == Inline(id)
  }

  ghost predicate FlagsRight(w: World) {
    forall id | id in w.values :: FlagRight(w, id)
  }

  /** v borrows an address in the buffer of value id. */
  predicate Refers(v: Value, id: ValueId) {
    v.ops.Borrowing? && v.data == Inline(id)
  }

  /** The flag is wrong of a value that borrows its own buffer, and of no other. */
  lemma FlagOf(w: World, id: ValueId)
    requires Good(w) && Known(w, id)
    ensures FlagRight(w, id) <==> !Refers(w.values[id], id)
  {
    assert ValueOk(w, id, w.values[id]);
  }

  /** The calls that hand a value a reference into its own buffer. */
  predicate PassesOwnBuffer(w: World, c: Call)
  {
    match c
    case CallRefer(_, _, target) => target == Inline(w.nextValue)
    case CallCopyOf(from) => from in w.values && Refers(w.values[from], w.nextValue)
    case CallMoveOf(from) => from in w.values && Refers(w.values[from], w.nextValue)
    case CallCopyAssign(to, from) => from in w.values && to != from && Refers(w.values[from], to)
    case CallMoveAssign(to, from) => from in w.values && to != from && Refers(w.values[from], to)
    case CallTryCopyTo(from, to) => from in w.values && Refers(w.values[from], to)
    case _ => false
  }

  lemma AlikeRefers(w: World, v: Value, x: World, u: Value, id: ValueId)
    requires Alike(w, v, x, u)
    ensures Refers(u, id) <==> Refers(v, id)
  {
  }

  /** When one value only is new or changed, it decides. */
  lemma OneFlag(w: World, x: World, id: ValueId)
    requires FlagsRight(w) && Good(x) && Known(x, id)
    requires forall o | o in x.values && o != id ::
               x.values[o] == EMPTY || (o in w.values && x.values[o] == w.values[o])
    ensures FlagsRight(x) <==> !Refers(x.values[id], id)
  {
    FlagOf(x, id);
    assert forall o | o in x.values && o != id && x.values[o] != EMPTY :: FlagRight(w, o);
  }

  lemma NoFlagChanges(w: World, x: World)
    requires FlagsRight(w)
    requires forall o | o in x.values :: x.values[o] == EMPTY || (o in w.values && x.values[o] == w.values[o])
    ensures FlagsRight(x)
  {
    assert forall o | o in x.values && x.values[o] != EMPTY :: FlagRight(w, o);
  }

  lemma MoveAssignFlags(w: World, to: ValueId, from: ValueId)
    requires Good(w) && Known(w, to) && Known(w, from) && FlagsRight(w)
    ensures FlagsRight(MoveAssign(w, to, from)) <==> !PassesOwnBuffer(w, CallMoveAssign(to, from))
  {
    if to != from {
      var x := MoveAssign(w, to, from);
      MoveHandsOver(w, to, from);
      AlikeRefers(w, w.values[from], x, x.values[to], to);
      OneFlag(w, x, to);
    }
  }

  lemma MoveIntoDeclared(w: World, d: World, to: ValueId, from: ValueId)
    requires Good(d) && Known(w, from) && to !in w.values
    requires d.values == w.values[to := EMPTY] && d.live == w.live
    ensures Movable(d, to, from)
    ensures var x := MoveFrom(d, to, from);
            && Known(x, to) && Alike(w, w.values[from], x, x.values[to])
            && x.values == d.values[to := x.values[to]][from := EMPTY]
  {
    MoveFromUndisturbed(d, to, from);
    MoveFromShape(d, to, from);
  }

  /** The moved-into value decides. */
  lemma MovedInFlags(w: World, x: World, to: ValueId, from: ValueId)
    requires Good(x) && FlagsRight(w) && Known(w, from) && to !in w.values
    requires Known(x, to) && Alike(w, w.values[from], x, x.values[to])
    requires x.values == w.values[to := x.values[to]][from := EMPTY]
    ensures FlagsRight(x) <==> !Refers(w.values[from], to)
  {
    AlikeRefers(w, w.values[from], x, x.values[to], to);
    OneFlag(w, x, to);
  }

  lemma MoveOfFlags(w: World, from: ValueId)
    requires Good(w) && Known(w, from) && FlagsRight(w)
    ensures FlagsRight(MoveOf(w, from)) <==> !PassesOwnBuffer(w, CallMoveOf(from))
  {
    DeclareGood(w);
    MoveIntoDeclared(w, Declare(w), w.nextValue, from);
    Overwrite(w.values, w.nextValue, EMPTY, MoveOf(w, from).values[w.nextValue]);
    MovedInFlags(w, MoveOf(w, from), w.nextValue, from);
  }

  lemma CopiedFlags(w: World, x: World, from: ValueId, out: ValueId)
    requires Good(w) && Known(w, from) && Known(w, out) && FlagsRight(w)
    requires TryCopyTo(w, from, out) == Done(x, Success)
    ensures FlagsRight(x) <==> !Refers(w.values[from], out)
  {
    CopyIsFaithful(w, from, out);
    AlikeRefers(w, w.values[from], x, x.values[out], out);
    OneFlag(w, x, out);
  }

  lemma TryCopyToFlags(w: World, from: ValueId, out: ValueId)
    requires Good(w) && Known(w, from) && Known(w, out) && FlagsRight(w)
    ensures FlagsRight(TryCopyTo(w, from, out).world) <==> !Refers(w.values[from], out)
  {
    FailedCopyChangesNothing(w, from, out);
    if TryCopyTo(w, from, out).error == Success {
      CopiedFlags(w, TryCopyTo(w, from, out).world, from, out);
    }
  }

  lemma CopyOfIs(w: World, from: ValueId)
    requires Good(w) && Known(w, from) && CopyOf(w, from).Done?
    ensures Good(Declare(w)) && CopyOf(w, from) == TryCopyTo(Declare(w), from, w.nextValue)
    ensures w.nextValue !in w.values
  {
    DeclareGood(w);
  }

  /** A copy into a value declared for it, seen from before the declaration. */
  lemma CopiedAlike(w: World, d: World, x: World, to: ValueId, from: ValueId)
    requires Good(d) && Known(w, from) && to !in w.values && d.values == w.values[to := EMPTY] && d.live == w.live
    requires TryCopyTo(d, from, to) == Done(x, Success)
    ensures Known(x, to) && Alike(w, w.values[from], x, x.values[to])
  {
    CopyIsFaithful(d, from, to);
  }

  lemma CopyOfAlike(w: World, from: ValueId)
    requires Good(w) && Known(w, from) && CopyOf(w, from).Done?
    ensures var x := CopyOf(w, from).world;
            && x.values.Keys == w.values.Keys + {w.nextValue} && w.nextValue !in w.values
            && Alike(w, w.values[from], x, x.values[w.nextValue]) && Undisturbed(w, x, {})
  {
    CopyOfIs(w, from);
    CopyOfDisturbsNothing(w, from);
    CopiedAlike(w, Declare(w), CopyOf(w, from).world, w.nextValue, from);
  }

  lemma CopyOfFlags(w: World, from: ValueId)
    requires Good(w) && Known(w, from) && FlagsRight(w) && CopyOf(w, from).Done?
    ensures FlagsRight(CopyOf(w, from).world) <==> !PassesOwnBuffer(w, CallCopyOf(from))
  {
    var x := CopyOf(w, from).world;
    CopyOfAlike(w, from);
    AlikeRefers(w, w.values[from], x, x.values[w.nextValue], w.nextValue);
    OneFlag(w, x, w.nextValue);
  }

  lemma DeclareFlags(w: World)
    requires FlagsRight(w)
    ensures FlagsRight(Declare(w))
  {
    NoFlagChanges(w, Declare(w));
  }

  lemma FromObjectFlags(w: World, t: Traits, content: int)
    requires Good(w) && FlagsRight(w)
    ensures FlagsRight(FromObject(w, t, content))
  {
    OneFlag(w, FromObject(w, t, content), w.nextValue);
  }

  lemma ReferFlags(w: World, t: Traits, policy: Policy, target: Address)
    requires Good(w) && FlagsRight(w) && policy != Owned && target != Null
    ensures FlagsRight(Refer(w, t, policy, target)) <==> !PassesOwnBuffer(w, CallRefer(t, policy, target))
  {
    OneFlag(w, Refer(w, t, policy, target), w.nextValue);
  }

  /** A copy assignment is a copy construction, a move and the end of the copy. */
  lemma CopyAssignIs(w: World, to: ValueId, from: ValueId)
    requires Good(w) && Known(w, to) && Known(w, from) && to != from && CopyAssign(w, to, from).Done?
    ensures CopyOf(w, from).Done?
    ensures var x := CopyOf(w, from).world;
            && Known(x, to) && Known(x, w.nextValue)
            && CopyAssign(w, to, from).world == EndOfLife(MoveAssign(x, to, w.nextValue), w.nextValue)
  {
    DeclareGood(w);
  }

  lemma CopiedInFlags(w: World, x: World, to: ValueId, from: ValueId, y: World)
    requires Good(w) && FlagsRight(w) && Known(w, to) && Known(w, from)
    requires CopyOf(w, from).Done? && x == CopyOf(w, from).world && Known(x, to) && Known(x, w.nextValue)
    requires y == EndOfLife(MoveAssign(x, to, w.nextValue), w.nextValue)
    ensures FlagsRight(y) <==> !Refers(w.values[from], to)
  {
    CopyOfAlike(w, from);
    AssignThroughFlags(w, x, to, from, w.nextValue);
  }

  lemma CopyAssignFlags(w: World, to: ValueId, from: ValueId, y: World)
    requires Good(w) && Known(w, to) && Known(w, from) && FlagsRight(w) && to != from
    requires CopyAssign(w, to, from) == Done(y, Success)
    ensures FlagsRight(y) <==> !Refers(w.values[from], to)
  {
    CopyAssignIs(w, to, from);
    CopiedInFlags(w, CopyOf(w, from).world, to, from, y);
  }

  /** Moving a filled temporary in and letting it go. */
  lemma AssignThroughFlags(w: World, w1: World, to: ValueId, from: ValueId, tmp: ValueId)
    requires FlagsRight(w) && Known(w, to) && Known(w, from) && tmp !in w.values
    requires Good(w1) && w1.values.Keys == w.values.Keys + {tmp} && Undisturbed(w, w1, {})
    requires Alike(w, w.values[from], w1, w1.values[tmp])
    ensures FlagsRight(EndOfLife(MoveAssign(w1, to, tmp), tmp)) <==> !Refers(w.values[from], to)
  {
    var w2 := MoveAssign(w1, to, tmp);
    MoveHandsOver(w1, to, tmp);
    AlikeRefers(w1, w1.values[tmp], w2, w2.values[to], to);
    AlikeRefers(w, w.values[from], w1, w1.values[tmp], to);
    OneFlag(w, EndOfLife(w2, tmp), to);
  }

  /** A call leaves every inline flag right exactly when it hands no value a reference
      into its own buffer. */
  lemma FlagsStep(w: World, c: Call)
    requires Good(w) && FlagsRight(w) && Callable(w, c) && Step(w, c).Done?
    ensures FlagsRight(Step(w, c).world) <==> !PassesOwnBuffer(w, c)
  {
    match c
    case CallDefault => DeclareFlags(w);
    case CallFromObject(t, content) => FromObjectFlags(w, t, content);
    case CallRefer(t, policy, target) => ReferFlags(w, t, policy, target);
    case CallCopyOf(from) => CopyOfFlags(w, from);
    case CallMoveOf(from) => MoveOfFlags(w, from);
    case CallCopyAssign(to, from) =>
      if to != from {
        CopyAssignFlags(w, to, from, Step(w, c).world);
      }
    case CallMoveAssign(to, from) => MoveAssignFlags(w, to, from);
    case CallTryCopyTo(from, to) => TryCopyToFlags(w, from, to);
    case CallEndOfLife(id) => NoFlagChanges(w, EndOfLife(w, id));
  }

  /** No call of the run hands a value a reference into its own buffer. */
  ghost predicate NeverOwnBuffer(calls: seq<Call>) {
    calls != [] ==>
      var before := calls[..|calls| - 1];
      NeverOwnBuffer(before) && (Run(before).Reached? ==> !PassesOwnBuffer(Run(before).world, calls[|calls| - 1]))
  }

  /** Every flag is right after every call of the run. */
  ghost predicate AlwaysRight(calls: seq<Call>) {
    && (Run(calls).Reached? ==> FlagsRight(Run(calls).world))
    && (calls != [] ==> AlwaysRight(calls[..|calls| - 1]))
  }

  /** Over a whole run no flag is ever wrong if and only if no call does so. */
  lemma {:induction false} FlagsOverRuns(calls: seq<Call>)
    requires Run(calls).Reached?
    ensures AlwaysRight(calls) <==> NeverOwnBuffer(calls)
  {
    if calls != [] {
      var before := calls[..|calls| - 1];
      FlagsOverRuns(before);
      if AlwaysRight(before) {
        FlagsStep(Run(before).world, calls[|calls| - 1]);
      }
    }
  }

  // ----- A reference to the own inline object -----

  /** Assigning a value a reference to its own inline object destroys that object
      and leaves the value borrowing its own, now dead, buffer. */
  lemma SelfReferenceDangles(w: World, id: ValueId, r: ValueId)
    requires Good(w) && Known(w, id) && Known(w, r) && id != r
    requires w.values[id].isInline && Refers(w.values[r], id)
    ensures var x := MoveAssign(w, id, r);
            Inline(id) in w.live && Refers(x.values[id], id) && !FlagRight(x, id) && Inline(id) !in x.live
  {
    var x := MoveAssign(w, id, r);
    MoveHandsOver(w, id, r);
    assert ValueOk(w, id, w.values[id]);
    AlikeRefers(w, w.values[r], x, x.values[id], id);
    FlagOf(x, id);
    BufferFree(x, id);
  }

  /** Three calls are enough: make a value with a small object, make a reference to
      that object, assign the reference to the value. */
  function Dangling(t: Traits, content: int): seq<Call> {
    [CallFromObject(t, content), CallRefer(t, MutRef, Inline(0)), CallMoveAssign(0, 1)]
  }

  lemma RunLonger(calls: seq<Call>, c: Call)
    requires Run(calls).Reached? && Callable(Run(calls).world, c) && Step(Run(calls).world, c).Done?
    ensures Run(calls + [c]) == Reached(Step(Run(calls).world, c).world)
  {
    assert (calls + [c])[..|calls + [c]| - 1] == calls;
  }

  /** The first two calls, and what they leave. */
  lemma ReferredRun(t: Traits, content: int)
    requires t.usesBuffer
    ensures var e := Run([CallFromObject(t, content), CallRefer(t, MutRef, Inline(0))]);
            && e.Reached? && Known(e.world, 0) && Known(e.world, 1)
            && e.world.values[0].isInline && Refers(e.world.values[1], 0)
  {
    var make, refer := CallFromObject(t, content), CallRefer(t, MutRef, Inline(0));
    RunLonger([], make);
    RunLonger([make], refer);
    assert [] + [make] == [make] && [make] + [refer] == [make, refer];
  }

  lemma DanglingRun(t: Traits, content: int)
    requires t.usesBuffer
    ensures Run(Dangling(t, content)).Reached?
    ensures var x := Run(Dangling(t, content)).world;
            0 in x.values && Refers(x.values[0], 0) && Inline(0) !in x.live && !FlagRight(x, 0)
  {
    ReferredRun(t, content);
    var two := [CallFromObject(t, content), CallRefer(t, MutRef, Inline(0))];
    DanglingAfter(two);
    assert two + [CallMoveAssign(0, 1)] == Dangling(t, content);
  }

  lemma DanglingAfter(calls: seq<Call>)
    requires var e := Run(calls);
             && e.Reached? && Known(e.world, 0) && Known(e.world, 1)
             && e.world.values[0].isInline && Refers(e.world.values[1], 0)
    ensures Run(calls + [CallMoveAssign(0, 1)]).Reached?
    ensures var x := Run(calls + [CallMoveAssign(0, 1)]).world;
            0 in x.values && Refers(x.values[0], 0) && Inline(0) !in x.live && !FlagRight(x, 0)
  {
    RunLonger(calls, CallMoveAssign(0, 1));
    SelfReferenceDangles(Run(calls).world, 0, 1);
  }
}
