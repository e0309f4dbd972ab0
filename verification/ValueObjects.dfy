/** cmm::Value as an object whose methods update its fields, proved against the
    memory model. */
module ValueObjects {
  import opened Core
  import opened Values
  import Runs = ValueRuns

  /** The objects that values own, shared by all of them. */
  class Memory {
    var live: map<Address, Object>
    var nextValue: nat
    var nextCell: nat
    var nextSerial: nat
    ghost var destroyed: multiset<nat>

    ghost predicate Is(w: World)
      reads this
    {
      && live == w.live && nextValue == w.nextValue && nextCell == w.nextCell
      && nextSerial == w.nextSerial && destroyed == w.destroyed
    }

    constructor ()
      ensures Is(START)
    {
      live, nextValue, nextCell, nextSerial, destroyed := map[], 0, 0, 0, multiset{};
    }

    method Construct(a: Address, content: int, ghost w: World)
      requires Is(w) && a !in w.live
      modifies this
      ensures Is(ConstructAt(w, a, content))
    {
      live := live[a := Object(nextSerial, content)];
      nextSerial := nextSerial + 1;
    }

    method Destroy(a: Address, ghost w: World)
      requires Is(w) && a in w.live
      modifies this
      ensures Is(DestroyAt(w, a))
    {
      destroyed := destroyed + multiset{live[a].serial};
      live := live - {a};
    }

    method DeclareValue(ghost w: World) returns (id: ValueId)
      requires Is(w)
      modifies this
      ensures id == w.nextValue && Is(Declare(w))
    {
      id := nextValue;
      nextValue := nextValue + 1;
    }
  }

  class ValueObject {
    const id: ValueId
    var typeId: Info
    var pointeeId: Info
    var pointeeConst: bool
    var policy: Policy
    var data: Address
    var ops: Ops
    var isInline: bool

    function Fields(): Value
      reads this
    {
      Value(typeId, pointeeId, pointeeConst, policy, data, ops, isInline)
    }

    /** This object is the declared value of that id. */
    ghost predicate Is(w: World)
      reads this
    {
      id in w.values && w.values[id] == Fields()
    }

    constructor (id: ValueId)
      ensures this.id == id && Fields() == EMPTY
    {
      this.id := id;
      typeId, pointeeId, pointeeConst := INVALID_INFO, INVALID_INFO, false;
      policy, data, ops, isInline := Owned, Null, NoOps, false;
    }

    /** ops_->destroy(data_). */
    method DestroyData(mem: Memory, ghost w: World)
      requires mem.Is(w) && Is(w) && Destroyable(w, id) && data != Null && !ops.NoOps?
      modifies mem
      ensures mem.Is(if ops.Owning? then DestroyAt(w, data) else w)
    {
      if ops.Owning? {
        mem.Destroy(data, w);
      }
    }

    method Reset(mem: Memory, ghost w: World)
      requires mem.Is(w) && Is(w) && Destroyable(w, id)
      modifies this, mem
      ensures mem.Is(Values.Reset(w, id)) && Is(Values.Reset(w, id)) && Fields() == EMPTY
    {
      if data != Null && !ops.NoOps? {
        DestroyData(mem, w);
      }
      data := Null;
      ops := NoOps;
      typeId := INVALID_INFO;
      pointeeId := INVALID_INFO;
      pointeeConst := false;
      policy := Owned;
      isInline := false;
    }

    /** move_from up to the reset of the source. */
    method TakeOver(other: ValueObject, mem: Memory, ghost w: World)
      requires mem.Is(w) && Is(w) && other.Is(w) && id != other.id && Movable(w, id, other.id)
      modifies this, other, mem
      ensures var x := Values.TakeOver(w, id, other.id);
              mem.Is(x) && Is(x) && other.Is(x)
    {
      typeId := other.typeId;
      pointeeId := other.pointeeId;
      pointeeConst := other.pointeeConst;
      policy := other.policy;
      ops := other.ops;
      isInline := other.isInline;
      if other.data != Null && !ops.NoOps? {
        if isInline {
          // ops_->move
          if ops.Owning? && ops.traits.usesBuffer {
            mem.Construct(Inline(id), mem.live[other.data].content, w);
            data := Inline(id);
          } else {
            data := other.data;
          }
        } else {
          data := other.data;
          other.data := Null;
        }
      } else {
        data := Null;
      }
    }

    method MoveFrom(other: ValueObject, mem: Memory, ghost w: World)
      requires mem.Is(w) && Is(w) && other.Is(w) && id != other.id && Movable(w, id, other.id)
      modifies this, other, mem
      ensures var x := Values.MoveFrom(w, id, other.id);
              mem.Is(x) && Is(x) && other.Is(x)
    {
      TakeOver(other, mem, w);
      other.Reset(mem, Values.TakeOver(w, id, other.id));
    }

    /** operator=(Value&&). */
    method MoveAssign(other: ValueObject, mem: Memory, ghost w: World)
      requires Good(w) && mem.Is(w) && Is(w) && other.Is(w) && (this == other <==> id == other.id)
      modifies this, other, mem
      ensures var x := Runs.MoveAssign(w, id, other.id);
              mem.Is(x) && Is(x) && other.Is(x)
    {
      if this != other {
        Runs.MoveAssignGood(w, id, other.id);
        Reset(mem, w);
        MoveFrom(other, mem, Values.Reset(w, id));
      }
    }

    /** try_copy_to: the target is written only after the copy has succeeded. */
    method TryCopyTo(out: ValueObject, mem: Memory, ghost w: World) returns (error: Error)
      requires Good(w) && mem.Is(w) && Is(w) && out.Is(w) && (this == out <==> id == out.id)
      modifies out, mem
      ensures var r := Runs.TryCopyTo(w, id, out.id);
              error == r.error && mem.Is(r.world) && Is(r.world) && out.Is(r.world)
    {
      if data == Null {
        ResetGood(w, out.id);
        out.Reset(mem, w);
        return Success;
      }
      if ops.NoOps? || (ops.Owning? && !ops.traits.copyable) {
        assert ValueOk(w, id, w.values[id]);
        return NonCopyableValue;
      }
      CopyThrough(out, mem, w);
      return Success;
    }

    /** Declares the local replacement and fills it. */
    method MakeReplacement(mem: Memory, ghost w: World) returns (replacement: ValueObject)
      requires Good(w) && mem.Is(w) && Is(w) && data != Null && !ops.NoOps?
      modifies mem
      ensures fresh(replacement) && replacement.id == w.nextValue
      ensures mem.Is(Runs.Replacement(w, id)) && replacement.Is(Runs.Replacement(w, id))
    {
      DeclareGood(w);
      var tmp := mem.DeclareValue(w);
      replacement := new ValueObject(tmp);
      CopyFields(replacement, mem, Declare(w));
    }

    /** Fills a replacement and moves it into the target. */
    method Replace(out: ValueObject, mem: Memory, ghost w: World) returns (replacement: ValueObject)
      requires Good(w) && mem.Is(w) && Is(w) && out.Is(w) && (this == out <==> id == out.id)
      requires data != Null && !ops.NoOps?
      modifies out, mem
      ensures fresh(replacement) && replacement.id == w.nextValue
      ensures var x := Runs.Replaced(w, id, out.id);
              mem.Is(x) && Is(x) && out.Is(x) && replacement.Is(x)
    {
      ghost var w1 := Runs.Replacement(w, id);
      replacement := MakeReplacement(mem, w);
      assert Is(w1) && out.Is(w1);
      out.MoveAssign(replacement, mem, w1);
    }

    method CopyThrough(out: ValueObject, mem: Memory, ghost w: World)
      requires Good(w) && mem.Is(w) && Is(w) && out.Is(w) && (this == out <==> id == out.id)
      requires data != Null && !ops.NoOps?
      modifies out, mem
      ensures var x := Runs.CopyThrough(w, id, out.id);
              mem.Is(x) && Is(x) && out.Is(x)
    {
      var replacement := Replace(out, mem, w);
      ghost var w2 := Runs.Replaced(w, id, out.id);
      ResetGood(w2, w.nextValue);
      replacement.Reset(mem, w2);
    }

    /** The assignments to the replacement, ending with ops_->copy. */
    method CopyFields(replacement: ValueObject, mem: Memory, ghost w: World)
      requires Good(w) && mem.Is(w) && Is(w) && replacement.Is(w)
      requires replacement.Fields() == EMPTY && this != replacement
      requires data != Null && !ops.NoOps?
      modifies replacement, mem
      ensures Inline(replacement.id) !in w.live && Heap(w.nextCell) !in w.live
      ensures ops.Owning? ==> data in w.live
      ensures mem.Is(CopyInto(w, replacement.id, id)) && replacement.Is(CopyInto(w, replacement.id, id))
    {
      CopyIntoGood(w, replacement.id, id);
      replacement.typeId := typeId;
      replacement.pointeeId := pointeeId;
      replacement.pointeeConst := pointeeConst;
      replacement.policy := policy;
      replacement.ops := ops;
      replacement.isInline := isInline;
      if ops.Borrowing? {
        replacement.data := data;
      } else if ops.traits.usesBuffer {
        mem.Construct(Inline(replacement.id), mem.live[data].content, w);
        replacement.data := Inline(replacement.id);
      } else {
        mem.Construct(Heap(mem.nextCell), mem.live[data].content, w);
        replacement.data := Heap(mem.nextCell);
        mem.nextCell := mem.nextCell + 1;
      }
    }

    /** operator=(const Value&); false stands for std::abort. */
    method CopyAssign(other: ValueObject, mem: Memory, ghost w: World) returns (ok: bool)
      requires Good(w) && mem.Is(w) && Is(w) && other.Is(w) && (this == other <==> id == other.id)
      modifies this, mem
      ensures ok <==> Runs.CopyAssign(w, id, other.id).Done?
      ensures ok ==> var x := Runs.CopyAssign(w, id, other.id).world; mem.Is(x) && Is(x)
    {
      if this == other {
        return true;
      }
      DeclareGood(w);
      var tmp := mem.DeclareValue(w);
      var replacement := new ValueObject(tmp);
      var error := other.TryCopyTo(replacement, mem, Declare(w));
      if error != Success {
        return false;
      }
      ghost var w2 := Runs.TryCopyTo(Declare(w), other.id, tmp).world;
      CopyKeepsThird(Declare(w), other.id, tmp, id);
      MoveAssign(replacement, mem, w2);
      ghost var w3 := Runs.MoveAssign(w2, id, tmp);
      ResetGood(w3, tmp);
      replacement.Reset(mem, w3);
      return true;
    }
  }

  lemma CopyKeepsThird(w: World, from: ValueId, out: ValueId, third: ValueId)
    requires Good(w) && from in w.values && out in w.values && third in w.values
    requires third != from && third != out && from != out
    requires Runs.TryCopyTo(w, from, out).error == Success
    ensures third in Runs.TryCopyTo(w, from, out).world.values
    ensures Runs.TryCopyTo(w, from, out).world.values[third] == w.values[third]
  {
    Runs.CopyIsFaithful(w, from, out);
  }
}
