/** include/cmm/value.hpp: type-erased values with inline, heap or borrowed
    storage, as operations on a memory that logs every construction and
    destruction. */
module Values {
  import opened Core

  type ValueId = nat

  /** Inline(v) is the buffer inside value v; External objects belong to callers. */
  datatype Address = Null | Inline(owner: ValueId) | Heap(cell: nat) | External(object: nat)

  /** What value_ops<T> depends on: T's ids, whether it fits the small buffer
      (UseSBO) and whether it can be copied. */
  datatype Traits = Traits(typeId: Info, pointeeId: Info, pointeeConst: bool, usesBuffer: bool, copyable: bool)

  datatype Ops = NoOps | Owning(traits: Traits) | Borrowing

  datatype Policy = Owned | MutRef | ConstRef | RvalueRef

  datatype Value = Value(typeId: Info, pointeeId: Info, pointeeConst: bool, policy: Policy,
                         data: Address, ops: Ops, isInline: bool)

  const EMPTY := Value(INVALID_INFO, INVALID_INFO, false, Owned, Null, NoOps, false)

  datatype Object = Object(serial: nat, content: int)

  /** live: the constructed objects; serials below nextSerial have been handed
      out; destroyed counts destructor runs per serial. */
  datatype World = World(values: map<ValueId, Value>, live: map<Address, Object>,
                         nextValue: nat, nextCell: nat, nextSerial: nat, destroyed: multiset<nat>)

  const START := World(map[], map[], 0, 0, 0, multiset{})

  // ----- Objects -----

  function ConstructAt(w: World, a: Address, content: int): World
    requires a !in w.live
  {
    w.(live := w.live[a := Object(w.nextSerial, content)], nextSerial := w.nextSerial + 1)
  }

  /** The destructor may run on live objects only. */
  function DestroyAt(w: World, a: Address): World
    requires a in w.live
  {
    w.(live := w.live - {a}, destroyed := w.destroyed + multiset{w.live[a].serial})
  }

  // ----- Invariants -----

  ghost predicate Owns(v: Value, a: Address) {
    v.ops.Owning? && v.data == a
  }

  /** A value is empty, owns a live object in its buffer or on the heap, or
      borrows an address. */
  ghost predicate ValueOk(w: World, id: ValueId, v: Value) {
    || v == EMPTY
    || (&& v.ops.Owning? && v.policy == Owned && v.data in w.live
        && v.isInline == v.ops.traits.usesBuffer
        && v.typeId == v.ops.traits.typeId && v.pointeeId == v.ops.traits.pointeeId
        && v.pointeeConst == v.ops.traits.pointeeConst
        && (v.isInline <==> v.data == Inline(id))
        && (!v.isInline ==> v.data.Heap?))
    || (v.ops.Borrowing? && v.policy != Owned && v.data != Null && !v.isInline)
  }

  ghost predicate HasOwner(w: World, a: Address) {
    exists id :: id in w.values && Owns(w.values[id], a)
  }

  /** Live objects and owning values correspond one to one. */
  ghost predicate Ownership(w: World) {
    && (forall id | id in w.values :: id < w.nextValue && ValueOk(w, id, w.values[id]))
    && (forall a | a in w.live :: HasOwner(w, a))
    && (forall id, other | id in w.values && other in w.values && id != other
                           && w.values[id].ops.Owning? && w.values[other].ops.Owning? ::
          w.values[id].data != w.values[other].data)
    && (forall a | a in w.live && a.Heap? :: a.cell < w.nextCell)
  }

  ghost predicate SerialLive(w: World, s: nat) {
    exists a :: a in w.live && w.live[a].serial == s
  }

  /** Every object constructed so far is live, or was destroyed exactly once. */
  ghost predicate Ledger(w: World) {
    && (forall a | a in w.live :: w.live[a].serial < w.nextSerial)
    && (forall a, b | a in w.live && b in w.live && a != b :: w.live[a].serial != w.live[b].serial)
    && (forall s: nat :: w.destroyed[s] == if s < w.nextSerial && !SerialLive(w, s) then 1 else 0)
  }

  ghost predicate Good(w: World) {
    Ownership(w) && Ledger(w)
  }

  lemma ConstructKeepsLedger(w: World, a: Address, content: int)
    requires Ledger(w) && a !in w.live
    ensures Ledger(ConstructAt(w, a, content))
  {
    var x := ConstructAt(w, a, content);
    assert x.live[a].serial == w.nextSerial;
    forall s: nat ensures SerialLive(x, s) <==> SerialLive(w, s) || s == w.nextSerial {
      if SerialLive(w, s) {
        var b :| b in w.live && w.live[b].serial == s;
        assert b in x.live && x.live[b].serial == s;
      }
    }
  }

  lemma DestroyKeepsLedger(w: World, a: Address)
    requires Ledger(w) && a in w.live
    ensures Ledger(DestroyAt(w, a))
  {
    var x := DestroyAt(w, a);
    var gone := w.live[a].serial;
    forall s: nat ensures SerialLive(x, s) <==> SerialLive(w, s) && s != gone {
      if SerialLive(w, s) && s != gone {
        var b :| b in w.live && w.live[b].serial == s;
        assert b in x.live && x.live[b].serial == s;
      }
    }
    assert SerialLive(w, gone);
  }

  // ----- reset, move_from and the copy step -----

  /** The object behind an owning value is alive. */
  ghost predicate Destroyable(w: World, id: ValueId) {
    id in w.values && (w.values[id].ops.Owning? && w.values[id].data != Null ==> w.values[id].data in w.live)
  }

  /** reset: run ops->destroy, which does nothing for a borrowed object, then clear
      every field. */
  function Reset(w: World, id: ValueId): World
    requires Destroyable(w, id)
  {
    var v := w.values[id];
    var w1 := if v.data != Null && v.ops.Owning? then DestroyAt(w, v.data) else w;
    w1.(values := w1.values[id := EMPTY])
  }

  ghost predicate Movable(w: World, to: ValueId, from: ValueId) {
    && to in w.values && Destroyable(w, from) && to != from
    && (w.values[from].isInline && w.values[from].ops.Owning? ==> Inline(to) !in w.live)
  }

  /** move_from up to the reset of the source: an inline object is move-constructed
      into this value's buffer; anything else hands its pointer over. */
  function TakeOver(w: World, to: ValueId, from: ValueId): (r: World)
    requires Movable(w, to, from)
    ensures Destroyable(r, from)
  {
    var other := w.values[from];
    if other.data == Null || other.ops.NoOps? then
      w.(values := w.values[to := other.(data := Null)])
    else if other.isInline && other.ops.Owning? && other.ops.traits.usesBuffer then
      var w1 := ConstructAt(w, Inline(to), w.live[other.data].content);
      w1.(values := w1.values[to := other.(data := Inline(to))])
    else if other.isInline then
      // ops->move of a borrowed or heap object returns the source pointer
      w.(values := w.values[to := other])
    else
      w.(values := w.values[to := other][from := other.(data := Null)])
  }

  /** move_from: the source's own object, if it still has one, is destroyed. */
  function MoveFrom(w: World, to: ValueId, from: ValueId): World
    requires Movable(w, to, from)
  {
    Reset(TakeOver(w, to, from), from)
  }

  /** Filling the fresh replacement of try_copy_to through ops->copy. */
  function CopyInto(w: World, to: ValueId, from: ValueId): World
    requires to in w.values && from in w.values && w.values[from].data != Null
    requires w.values[from].ops.Owning? ==> w.values[from].data in w.live
    requires Inline(to) !in w.live && Heap(w.nextCell) !in w.live
  {
    var other := w.values[from];
    if !other.ops.Owning? then
      w.(values := w.values[to := other])
    else if other.ops.traits.usesBuffer then
      var w1 := ConstructAt(w, Inline(to), w.live[other.data].content);
      w1.(values := w1.values[to := other.(data := Inline(to))])
    else
      var w1 := ConstructAt(w, Heap(w.nextCell), w.live[other.data].content);
      w1.(values := w1.values[to := other.(data := Heap(w.nextCell))], nextCell := w.nextCell + 1)
  }

  function Declare(w: World): World {
    w.(values := w.values[w.nextValue := EMPTY], nextValue := w.nextValue + 1)
  }

  /** End of scope of a value that has been reset. */
  function Discard(w: World, id: ValueId): World {
    w.(values := w.values - {id})
  }

  /** An object in a value's buffer is owned by that value. */
  lemma InlineOwned(w: World, id: ValueId)
    requires Good(w) && Inline(id) in w.live
    ensures id in w.values && Owns(w.values[id], Inline(id))
  {
    var o :| o in w.values && Owns(w.values[o], Inline(id));
    assert ValueOk(w, o, w.values[o]);
  }

  lemma DeclareGood(w: World)
    requires Good(w)
    ensures Good(Declare(w)) && w.nextValue !in w.values
    ensures Inline(w.nextValue) !in w.live && Heap(w.nextCell) !in w.live
  {
    var x := Declare(w);
    forall a | a in x.live ensures HasOwner(x, a) {
      var id :| id in w.values && Owns(w.values[id], a);
      assert Owns(x.values[id], a);
    }
    if Inline(w.nextValue) in w.live {
      InlineOwned(w, w.nextValue);
    }
  }

  lemma ResetOwnership(w: World, id: ValueId)
    requires Good(w) && id in w.values
    ensures Destroyable(w, id) && Ownership(Reset(w, id))
  {
    assert ValueOk(w, id, w.values[id]);
    var x := Reset(w, id);
    forall a | a in x.live ensures HasOwner(x, a) {
      var o :| o in w.values && Owns(w.values[o], a);
      assert o != id;
      assert Owns(x.values[o], a);
    }
    forall o | o in x.values ensures ValueOk(x, o, x.values[o]) {
      assert ValueOk(w, o, w.values[o]);
    }
  }

  lemma ResetGood(w: World, id: ValueId)
    requires Good(w) && id in w.values
    ensures Destroyable(w, id) && Good(Reset(w, id))
  {
    ResetOwnership(w, id);
    if w.values[id].data != Null && w.values[id].ops.Owning? {
      DestroyKeepsLedger(w, w.values[id].data);
      SameLedger(DestroyAt(w, w.values[id].data), Reset(w, id));
    } else {
      SameLedger(w, Reset(w, id));
    }
  }

  lemma SameLedger(w: World, x: World)
    requires Ledger(w) && w.live == x.live && w.nextSerial == x.nextSerial && w.destroyed == x.destroyed
    ensures Ledger(x)
  {
    assert forall s: nat :: SerialLive(w, s) <==> SerialLive(x, s);
  }

  lemma DiscardGood(w: World, id: ValueId)
    requires Good(w) && id in w.values && w.values[id] == EMPTY
    ensures Good(Discard(w, id))
  {
    var x := Discard(w, id);
    forall a | a in x.live ensures HasOwner(x, a) {
      var o :| o in w.values && Owns(w.values[o], a);
      assert Owns(x.values[o], a);
    }
    SameLedger(w, x);
  }

  /** The buffer of a value that owns nothing inline is free. */
  lemma BufferFree(w: World, id: ValueId)
    requires Good(w) && id in w.values && !w.values[id].ops.Owning?
    ensures Inline(id) !in w.live
  {
    if Inline(id) in w.live {
      InlineOwned(w, id);
    }
  }

  lemma MoveFromInline(w: World, to: ValueId, from: ValueId)
    requires Good(w) && to in w.values && from in w.values && to != from && w.values[to] == EMPTY
    requires w.values[from].isInline
    ensures Movable(w, to, from) && Good(MoveFrom(w, to, from))
  {
    BufferFree(w, to);
    var other := w.values[from];
    assert ValueOk(w, from, other);
    var w1 := ConstructAt(w, Inline(to), w.live[other.data].content);
    var w2 := w1.(values := w1.values[to := other.(data := Inline(to))]);
    ConstructKeepsLedger(w, Inline(to), w.live[other.data].content);
    SameLedger(w1, w2);
    InlineOwnership(w, w2, to, from);
    ResetGood(w2, from);
  }

  lemma InlineOwnership(w: World, w2: World, to: ValueId, from: ValueId)
    requires Ownership(w) && to in w.values && from in w.values && to != from && w.values[to] == EMPTY
    requires w.values[from].isInline && w.values[from].data in w.live && Inline(to) !in w.live
    requires var w1 := ConstructAt(w, Inline(to), w.live[w.values[from].data].content);
             w2 == w1.(values := w1.values[to := w.values[from].(data := Inline(to))])
    ensures Ownership(w2)
  {
    InlineOwners(w, w2, to, from);
    forall o | o in w2.values ensures ValueOk(w2, o, w2.values[o]) {
      assert ValueOk(w, o, w.values[o]);
    }
  }

  lemma InlineOwners(w: World, w2: World, to: ValueId, from: ValueId)
    requires Ownership(w) && to in w.values && from in w.values && to != from && w.values[to] == EMPTY
    requires w.values[from].isInline && w.values[from].data in w.live && Inline(to) !in w.live
    requires var w1 := ConstructAt(w, Inline(to), w.live[w.values[from].data].content);
             w2 == w1.(values := w1.values[to := w.values[from].(data := Inline(to))])
    ensures forall a | a in w2.live :: HasOwner(w2, a)
  {
    assert ValueOk(w, from, w.values[from]);
    forall a | a in w2.live ensures HasOwner(w2, a) {
      if a == Inline(to) {
        assert Owns(w2.values[to], a);
      } else {
        var o :| o in w.values && Owns(w.values[o], a);
        assert Owns(w2.values[o], a);
      }
    }
  }

  /** Handing a value's fields to an empty one transfers what it owns. */
  lemma TransferOwnership(w: World, to: ValueId, from: ValueId)
    requires Good(w) && to in w.values && from in w.values && to != from && w.values[to] == EMPTY
    requires !w.values[from].isInline
    ensures Good(w.(values := w.values[to := w.values[from]][from := EMPTY]))
  {
    var x := w.(values := w.values[to := w.values[from]][from := EMPTY]);
    TransferOwners(w, x, to, from);
    assert forall o | o in w.values :: ValueOk(w, o, w.values[o]);
    SameLedger(w, x);
  }

  lemma TransferOwners(w: World, x: World, to: ValueId, from: ValueId)
    requires Ownership(w) && to in w.values && from in w.values && to != from && w.values[to] == EMPTY
    requires x == w.(values := w.values[to := w.values[from]][from := EMPTY])
    ensures forall a | a in x.live :: HasOwner(x, a)
  {
    forall a | a in x.live ensures HasOwner(x, a) {
      var o :| o in w.values && Owns(w.values[o], a);
      assert Owns(x.values[if o == from then to else o], a);
    }
  }

  lemma Overwrite<K, V>(m: map<K, V>, k: K, u: V, v: V)
    ensures m[k := u][k := v] == m[k := v]
  {
  }

  lemma MoveFromPointerIs(w: World, to: ValueId, from: ValueId)
    requires Movable(w, to, from) && ValueOk(w, from, w.values[from]) && !w.values[from].isInline
    ensures MoveFrom(w, to, from) == w.(values := w.values[to := w.values[from]][from := EMPTY])
  {
    var other := w.values[from];
    Overwrite(w.values[to := other], from, other.(data := Null), EMPTY);
  }

  lemma MoveFromPointer(w: World, to: ValueId, from: ValueId)
    requires Good(w) && to in w.values && from in w.values && to != from && w.values[to] == EMPTY
    requires !w.values[from].isInline
    ensures Movable(w, to, from) && Good(MoveFrom(w, to, from))
    ensures MoveFrom(w, to, from) == w.(values := w.values[to := w.values[from]][from := EMPTY])
  {
    assert ValueOk(w, from, w.values[from]);
    MoveFromPointerIs(w, to, from);
    TransferOwnership(w, to, from);
  }

  /** move_from touches the two values' entries only. */
  lemma MoveFromShape(w: World, to: ValueId, from: ValueId)
    requires Movable(w, to, from)
    ensures MoveFrom(w, to, from).values == w.values[to := MoveFrom(w, to, from).values[to]][from := EMPTY]
    ensures MoveFrom(w, to, from).nextValue == w.nextValue
  {
    var other := w.values[from];
    Overwrite(w.values[to := other], from, other.(data := Null), EMPTY);
  }

  lemma MoveFromGood(w: World, to: ValueId, from: ValueId)
    requires Good(w) && to in w.values && from in w.values && to != from && w.values[to] == EMPTY
    ensures Movable(w, to, from) && Good(MoveFrom(w, to, from))
    ensures MoveFrom(w, to, from).values[from] == EMPTY
  {
    if w.values[from].isInline {
      MoveFromInline(w, to, from);
    } else {
      MoveFromPointer(w, to, from);
    }
  }

  /** A new object at a free address, owned by a so far empty value. */
  function Adopt(w: World, to: ValueId, v: Value, content: int): World
    requires v.data !in w.live
  {
    var w1 := ConstructAt(w, v.data, content);
    w1.(values := w1.values[to := v], nextCell := if v.data.Heap? then w.nextCell + 1 else w.nextCell)
  }

  ghost predicate Adoptable(w: World, to: ValueId, v: Value) {
    && to in w.values && w.values[to] == EMPTY
    && v.data !in w.live && v.ops.Owning? && v.policy == Owned && v.isInline == v.ops.traits.usesBuffer
    && v.typeId == v.ops.traits.typeId && v.pointeeId == v.ops.traits.pointeeId
    && v.pointeeConst == v.ops.traits.pointeeConst
    && v.data == if v.isInline then Inline(to) else Heap(w.nextCell)
  }

  lemma AdoptOwners(w: World, to: ValueId, v: Value, content: int)
    requires Good(w) && Adoptable(w, to, v)
    ensures forall a | a in Adopt(w, to, v, content).live :: HasOwner(Adopt(w, to, v, content), a)
  {
    var x := Adopt(w, to, v, content);
    forall a | a in x.live ensures HasOwner(x, a) {
      if a == v.data {
        assert Owns(x.values[to], a);
      } else {
        var o :| o in w.values && Owns(w.values[o], a);
        assert Owns(x.values[o], a);
      }
    }
  }

  lemma AdoptValues(w: World, to: ValueId, v: Value, content: int)
    requires Good(w) && Adoptable(w, to, v)
    ensures var x := Adopt(w, to, v, content);
            forall o | o in x.values :: o < x.nextValue && ValueOk(x, o, x.values[o])
    ensures forall o | o in w.values && w.values[o].ops.Owning? :: w.values[o].data in w.live
  {
    assert forall o | o in w.values :: ValueOk(w, o, w.values[o]);
  }

  lemma AdoptGood(w: World, to: ValueId, v: Value, content: int)
    requires Good(w) && Adoptable(w, to, v)
    ensures Good(Adopt(w, to, v, content))
  {
    AdoptOwners(w, to, v, content);
    AdoptValues(w, to, v, content);
    ConstructKeepsLedger(w, v.data, content);
    SameLedger(ConstructAt(w, v.data, content), Adopt(w, to, v, content));
  }

  lemma BorrowGood(w: World, to: ValueId, v: Value)
    requires Good(w) && to in w.values && w.values[to] == EMPTY
    requires v.ops.Borrowing? && v.policy != Owned && v.data != Null && !v.isInline
    ensures Good(w.(values := w.values[to := v]))
  {
    var x := w.(values := w.values[to := v]);
    assert forall o | o in w.values :: ValueOk(w, o, w.values[o]);
    forall a | a in x.live ensures HasOwner(x, a) {
      var o :| o in w.values && Owns(w.values[o], a);
      assert Owns(x.values[o], a);
    }
    SameLedger(w, x);
  }

  lemma HeapFree(w: World)
    requires Good(w)
    ensures Heap(w.nextCell) !in w.live
  {
  }

  lemma CopyIntoGood(w: World, to: ValueId, from: ValueId)
    requires Good(w) && to in w.values && from in w.values && w.values[to] == EMPTY && w.values[from].data != Null
    ensures Inline(to) !in w.live && Heap(w.nextCell) !in w.live
    ensures w.values[from].ops.Owning? ==> w.values[from].data in w.live
    ensures Good(CopyInto(w, to, from))
  {
    BufferFree(w, to);
    HeapFree(w);
    var other := w.values[from];
    assert ValueOk(w, from, other);
    if other.ops.Owning? {
      var v := other.(data := if other.isInline then Inline(to) else Heap(w.nextCell));
      AdoptGood(w, to, v, w.live[other.data].content);
    } else {
      BorrowGood(w, to, other);
    }
  }
}
