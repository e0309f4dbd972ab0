/** cmm::DynamicObject (include/cmm/meta.hpp and include/cmm/static_lifecycle.hpp):
    move-only handles on objects built by a reflected constructor. */
module DynamicObjects {
  import opened Core
  import opened ConstructorCalls

  type HolderId = nat

  /** A T* held in a Value: its pointee class and the object it points to. */
  datatype Pointer = Pointer(classId: Info, obj: nat)

  datatype Holder = Holder(pointer: Option<Pointer>, destructor: Info)

  const VACANT := Holder(None, INVALID_INFO)

  /** What the registry answers: the constructors and the destructor of each class,
      the class each destructor function was declared in, and what types decay to. */
  datatype Registry = Registry(constructorsOf: map<Info, seq<Constructor>>, destructorOf: map<Info, Info>,
                               declaredIn: map<Info, Info>, types: Types)

  /** Destructors are listed by the class that declares them. */
  ghost predicate Consistent(r: Registry) {
    forall c | c in r.destructorOf && r.destructorOf[c] != INVALID_INFO ::
      r.destructorOf[c] in r.declaredIn && r.declaredIn[r.destructorOf[c]] == c
  }

  /** live: objects not yet deleted; destroyed and released count per object. */
  datatype World = World(holders: map<HolderId, Holder>, live: set<nat>, nextHolder: nat, nextObject: nat,
                         destroyed: multiset<nat>, released: multiset<nat>)

  const START := World(map[], {}, 0, 0, multiset{}, multiset{})

  datatype Result = Done(world: World) | Aborted

  // ----- The destructor thunk -----

  /** reflect_invoke of a destructor on one pointer argument. */
  function DestructorVerdict(r: Registry, destructor: Info, argument: Option<Pointer>): Error {
    if destructor !in r.declaredIn then EntityNotFound
    else if argument.None? || argument.value.classId != r.declaredIn[destructor] then InvalidArgumentType
    else Success
  }

  function Delete(w: World, obj: nat): World
    requires obj in w.live
  {
    w.(live := w.live - {obj}, destroyed := w.destroyed + multiset{obj})
  }

  // ----- DynamicObject -----

  /** A pointer with a destructor id is a live object. */
  ghost predicate Deletable(w: World, id: HolderId) {
    id in w.holders && (w.holders[id].pointer.Some? ==> w.holders[id].pointer.value.obj in w.live)
  }

  /** destroy(): delete through the destructor thunk, abort if it refuses. */
  function DestroyStep(r: Registry, w: World, id: HolderId): Result
    requires Deletable(w, id)
  {
    var h := w.holders[id];
    if h.pointer.None? || h.destructor == INVALID_INFO then Done(w)
    else if DestructorVerdict(r, h.destructor, h.pointer) != Success then Aborted
    else Done(Delete(w, h.pointer.value.obj).(holders := w.holders[id := VACANT]))
  }

  function Declare(w: World): World {
    w.(holders := w.holders[w.nextHolder := VACANT], nextHolder := w.nextHolder + 1)
  }

  /** The moving part of move construction and move assignment. */
  function Take(w: World, to: HolderId, from: HolderId): World
    requires to in w.holders && from in w.holders
  {
    w.(holders := w.holders[to := w.holders[from]][from := VACANT])
  }

  // ----- Custody -----

  ghost predicate Holds(w: World, id: HolderId, obj: nat) {
    id in w.holders && w.holders[id].pointer.Some? && w.holders[id].pointer.value.obj == obj
  }

  ghost predicate Held(w: World, obj: nat) {
    exists id :: Holds(w, id, obj)
  }

  ghost predicate HolderOk(r: Registry, w: World, id: HolderId)
    requires id in w.holders
  {
    var h := w.holders[id];
    h == VACANT
    || (&& h.pointer.Some? && h.pointer.value.obj in w.live && h.pointer.value.obj < w.nextObject
        && h.destructor != INVALID_INFO && h.pointer.value.classId in r.destructorOf
        && r.destructorOf[h.pointer.value.classId] == h.destructor)
  }

  /** Every object built is held by one holder, or was destroyed once, or was
      released once. */
  ghost predicate Custody(r: Registry, w: World) {
    && (forall id | id in w.holders :: id < w.nextHolder && HolderOk(r, w, id))
    && (forall a, b, obj | Holds(w, a, obj) && Holds(w, b, obj) :: a == b)
    && (forall obj: nat :: w.destroyed[obj] + w.released[obj]
          == if obj < w.nextObject && !Held(w, obj) then 1 else 0)
  }

  lemma HeldWithout(w: World, x: World, id: HolderId)
    requires id in w.holders && x.holders == w.holders[id := VACANT]
    requires forall a, b, obj | Holds(w, a, obj) && Holds(w, b, obj) :: a == b
    ensures forall obj: nat :: Held(x, obj) <==> Held(w, obj) && !Holds(w, id, obj)
  {
    forall obj: nat ensures Held(x, obj) <==> Held(w, obj) && !Holds(w, id, obj) {
      if Held(w, obj) && !Holds(w, id, obj) {
        var a :| Holds(w, a, obj);
        assert Holds(x, a, obj);
      }
      if Held(x, obj) {
        var a :| Holds(x, a, obj);
        assert Holds(w, a, obj);
      }
    }
  }

  /** Through construct alone, the thunk never refuses: destruction cannot abort. */
  lemma DestroyKeepsCustody(r: Registry, w: World, id: HolderId)
    requires Consistent(r) && Custody(r, w) && id in w.holders
    ensures Deletable(w, id) && DestroyStep(r, w, id).Done?
    ensures var x := DestroyStep(r, w, id).world;
            Custody(r, x) && x.holders == w.holders[id := VACANT] && x.nextHolder == w.nextHolder
    ensures w.holders[id] != VACANT ==>
              DestroyStep(r, w, id).world.destroyed == w.destroyed + multiset{w.holders[id].pointer.value.obj}
  {
    var h := w.holders[id];
    assert HolderOk(r, w, id);
    var x := DestroyStep(r, w, id).world;
    assert x.holders == w.holders[id := VACANT];
    HeldWithout(w, x, id);
    if h != VACANT {
      var obj := h.pointer.value.obj;
      assert Holds(w, id, obj);
      assert Held(w, obj);
      forall other | other in x.holders ensures HolderOk(r, x, other) {
        assert HolderOk(r, w, other);
        if other != id && w.holders[other].pointer.Some? {
          assert Holds(w, other, w.holders[other].pointer.value.obj);
        }
      }
    }
    assert forall a, o | Holds(x, a, o) :: Holds(w, a, o);
  }

  lemma DeclareKeepsCustody(r: Registry, w: World)
    requires Custody(r, w)
    ensures Custody(r, Declare(w)) && w.nextHolder !in w.holders
  {
    var x := Declare(w);
    assert forall id | id in w.holders :: HolderOk(r, w, id);
    assert forall a, o :: Holds(x, a, o) <==> Holds(w, a, o);
    assert forall o: nat :: Held(x, o) <==> Held(w, o);
  }

  lemma TakeKeepsCustody(r: Registry, w: World, to: HolderId, from: HolderId)
    requires Custody(r, w) && to in w.holders && from in w.holders && to != from && w.holders[to] == VACANT
    ensures Custody(r, Take(w, to, from))
  {
    var x := Take(w, to, from);
    assert forall id | id in w.holders :: HolderOk(r, w, id);
    forall a, o ensures Holds(x, a, o) <==> (a == to && Holds(w, from, o)) || (a != to && a != from && Holds(w, a, o)) {
    }
    forall o: nat ensures Held(x, o) <==> Held(w, o) {
      if Held(w, o) {
        var a :| Holds(w, a, o);
        assert Holds(x, if a == from then to else a, o);
      }
      if Held(x, o) {
        var a :| Holds(x, a, o);
        assert Holds(w, if a == to then from else a, o);
      }
    }
  }

  // ----- Operations -----

  function ConstructorsOf(r: Registry, classId: Info): seq<Constructor> {
    if classId in r.constructorsOf then r.constructorsOf[classId] else []
  }

  function DestructorOf(r: Registry, classId: Info): Info {
    if classId in r.destructorOf then r.destructorOf[classId] else INVALID_INFO
  }

  /** The constructor found has an id that construct does not take for a failure, the
      class has a destructor, and every argument can be made and binds to its parameter. */
  ghost predicate Constructible(r: Registry, classId: Info, args: seq<Argument>) {
    var found := FirstMatch(r.types, ConstructorsOf(r, classId), args);
    && found.Some? && found.value.id != INVALID_INFO
    && DestructorOf(r, classId) != INVALID_INFO
    && (forall i | 0 <= i < |args| :: Makeable(args[i])) && AllBind(r.types, found.value, args)
  }

  /** construct<Args...>(class_id, args...): abort without a constructor or without a
      destructor, abort where an argument cannot be copied into its Value, and abort in
      invoke when the constructor thunk refuses the arguments; otherwise the new pointer
      is held with the class's destructor. */
  function Construct(r: Registry, w: World, classId: Info, args: seq<Argument>): (result: Result)
    requires Custody(r, w)
    ensures result.Done? ==> Custody(r, result.world)
    ensures result.Done? <==> Constructible(r, classId, args)
  {
    var found := FirstMatch(r.types, ConstructorsOf(r, classId), args);
    var destructor := DestructorOf(r, classId);
    if found.None? || found.value.id == INVALID_INFO || destructor == INVALID_INFO then Aborted
    else if exists i :: 0 <= i < |args| && !Makeable(args[i]) then Aborted
    else
      ThunkAcceptsIff(r.types, found.value, args);
      if ThunkVerdict(r.types, found.value, MakeArgumentValues(r.types, args)) != Success then Aborted
      else
        var x := Built(w, classId, destructor);
        ConstructKeepsCustody(r, w, x, classId, destructor);
        Done(x)
  }

  function Built(w: World, classId: Info, destructor: Info): World {
    Declare(w).(
      live := w.live + {w.nextObject}, nextObject := w.nextObject + 1,
      holders := Declare(w).holders[w.nextHolder := Holder(Some(Pointer(classId, w.nextObject)), destructor)])
  }

  /** With one constructor of one parameter, that parameter decides. */
  lemma OneConstructor(r: Registry, w: World, classId: Info, c: Constructor, a: Argument)
    requires Custody(r, w) && DestructorOf(r, classId) != INVALID_INFO && c.id != INVALID_INFO
    requires ConstructorsOf(r, classId) == [c] && |c.parameters| == 1
    requires c.parameters[0].typeId == TypeIdOf(r.types, a) && Makeable(a)
    ensures FirstMatch(r.types, ConstructorsOf(r, classId), [a]) == Some(c)
    ensures Construct(r, w, classId, [a]).Done? <==> Binds(r.types, c.parameters[0], a)
  {
    OneParameter(r.types, c, a);
    assert [a][0] == a;
  }

  /** An input that shows the third cause: a class S with the constructor S(T&), called
      with a temporary T. */
  lemma TemporaryForReferenceAborts(r: Registry, w: World, classId: Info, typeId: Info, id: Info)
    requires Custody(r, w) && DestructorOf(r, classId) != INVALID_INFO && id != INVALID_INFO
    requires ConstructorsOf(r, classId) == [Constructor(id, [Parameter(typeId, ByReference(false, false))])]
    ensures FirstMatch(r.types, ConstructorsOf(r, classId), [Expression(typeId, Temporary)]).Some?
    ensures Construct(r, w, classId, [Expression(typeId, Temporary)]).Aborted?
    ensures Construct(r, w, classId, [Expression(typeId, Mutable)]).Done?
  {
    var c := ConstructorsOf(r, classId)[0];
    OneConstructor(r, w, classId, c, Expression(typeId, Temporary));
    OneConstructor(r, w, classId, c, Expression(typeId, Mutable));
  }

  /** Another one: a class with the constructor S(const char (&)[6]), called with a string
      literal or with any other array lvalue. */
  lemma StringLiteralAborts(r: Registry, w: World, classId: Info, arrayId: Info, id: Info, category: Category)
    requires Custody(r, w) && DestructorOf(r, classId) != INVALID_INFO && id != INVALID_INFO
    requires ConstructorsOf(r, classId) == [Constructor(id, [Parameter(arrayId, ByReference(true, false))])]
    requires IsArray(r.types, arrayId)
    ensures FirstMatch(r.types, ConstructorsOf(r, classId), [Expression(arrayId, category)]).Some?
    ensures Construct(r, w, classId, [Expression(arrayId, category)]).Done? <==> category == ConstTemporary
  {
    OneConstructor(r, w, classId, ConstructorsOf(r, classId)[0], Expression(arrayId, category));
  }

  lemma NothingAhead(r: Registry, w: World)
    requires Custody(r, w)
    ensures !Held(w, w.nextObject)
  {
    forall id ensures !Holds(w, id, w.nextObject) {
      if id in w.holders {
        assert HolderOk(r, w, id);
      }
    }
  }

  lemma ConstructKeepsCustody(r: Registry, w: World, x: World, classId: Info, destructor: Info)
    requires Custody(r, w) && classId in r.destructorOf && r.destructorOf[classId] == destructor != INVALID_INFO
    requires x == Built(w, classId, destructor)
    ensures Custody(r, x)
  {
    DeclareKeepsCustody(r, w);
    NothingAhead(r, w);
    assert forall id | id in w.holders :: HolderOk(r, w, id);
    forall a, o ensures Holds(x, a, o) <==> (a == w.nextHolder && o == w.nextObject) || Holds(w, a, o) {
    }
    forall o: nat ensures Held(x, o) <==> Held(w, o) || o == w.nextObject {
      if Held(w, o) {
        var a :| Holds(w, a, o);
        assert Holds(x, a, o);
      }
      assert Holds(x, w.nextHolder, w.nextObject);
    }
  }

  function MoveConstruct(r: Registry, w: World, from: HolderId): (x: World)
    requires Custody(r, w) && from in w.holders
    ensures Custody(r, x)
  {
    DeclareKeepsCustody(r, w);
    TakeKeepsCustody(r, Declare(w), w.nextHolder, from);
    Take(Declare(w), w.nextHolder, from)
  }

  /** operator=(DynamicObject&&) on any two handles, however they were made. */
  function MoveAssigned(r: Registry, w: World, to: HolderId, from: HolderId): Result
    requires Deletable(w, to) && from in w.holders
  {
    if to == from then Done(w)
    else
      match DestroyStep(r, w, to)
      case Aborted => Aborted
      case Done(x) => Done(Take(x, to, from))
  }

  /** On handles in custody it never aborts. */
  function MoveAssignStep(r: Registry, w: World, to: HolderId, from: HolderId): (x: World)
    requires Consistent(r) && Custody(r, w) && to in w.holders && from in w.holders
    ensures Custody(r, x) && Deletable(w, to) && MoveAssigned(r, w, to, from) == Done(x)
  {
    DestroyKeepsCustody(r, w, to);
    if to == from then w
    else
      TakeKeepsCustody(r, DestroyStep(r, w, to).world, to, from);
      Take(DestroyStep(r, w, to).world, to, from)
  }

  /** release<T>(): the object now belongs to the caller.  get<T*> asserts the type. */
  function Release(r: Registry, w: World, id: HolderId, asClass: Info): (result: Result)
    requires Custody(r, w) && id in w.holders
    ensures result.Done? ==> Custody(r, result.world)
    ensures result.Done? <==> w.holders[id].pointer.None? || w.holders[id].pointer.value.classId == asClass
  {
    var h := w.holders[id];
    if h.pointer.None? then
      ReleaseVacant(r, w, id);
      Done(w.(holders := w.holders[id := VACANT]))
    else if h.pointer.value.classId != asClass then Aborted
    else
      ReleaseKeepsCustody(r, w, id);
      Done(Handed(w, id))
  }

  function Handed(w: World, id: HolderId): World
    requires id in w.holders && w.holders[id].pointer.Some?
  {
    w.(holders := w.holders[id := VACANT], released := w.released + multiset{w.holders[id].pointer.value.obj})
  }

  lemma ReleaseVacant(r: Registry, w: World, id: HolderId)
    requires Custody(r, w) && id in w.holders && w.holders[id].pointer.None?
    ensures w.(holders := w.holders[id := VACANT]) == w
  {
    assert HolderOk(r, w, id);
    assert w.holders[id := VACANT] == w.holders;
  }

  lemma ReleaseKeepsCustody(r: Registry, w: World, id: HolderId)
    requires Custody(r, w) && id in w.holders && w.holders[id].pointer.Some?
    ensures Custody(r, Handed(w, id))
  {
    var x := Handed(w, id);
    HeldWithout(w, x, id);
    assert Holds(w, id, w.holders[id].pointer.value.obj);
    assert forall other | other in w.holders :: HolderOk(r, w, other);
    assert forall a, o | Holds(x, a, o) :: Holds(w, a, o);
  }

  /** ~DynamicObject. */
  function ScopeExit(r: Registry, w: World, id: HolderId): (x: World)
    requires Consistent(r) && Custody(r, w) && id in w.holders
    ensures Custody(r, x)
  {
    DestroyKeepsCustody(r, w, id);
    var w1 := DestroyStep(r, w, id).world;
    DiscardKeepsCustody(r, w1, id);
    w1.(holders := w1.holders - {id})
  }

  lemma DiscardKeepsCustody(r: Registry, w: World, id: HolderId)
    requires Custody(r, w) && id in w.holders && w.holders[id] == VACANT
    ensures Custody(r, w.(holders := w.holders - {id}))
  {
    var x := w.(holders := w.holders - {id});
    assert forall other | other in w.holders :: HolderOk(r, w, other);
    assert forall a, o :: Holds(x, a, o) <==> Holds(w, a, o);
    assert forall o: nat :: Held(x, o) <==> Held(w, o);
  }

  // ----- Runs -----

  datatype Call =
    | CallDefault
    | CallConstruct(classId: Info, args: seq<Argument>)
    | CallMoveConstruct(from: HolderId)
    | CallMoveAssign(to: HolderId, from: HolderId)
    | CallRelease(id: HolderId, asClass: Info)
    | CallScopeExit(id: HolderId)

  ghost predicate Callable(w: World, c: Call) {
    match c
    case CallDefault => true
    case CallConstruct(_, _) => true
    case CallMoveConstruct(from) => from in w.holders
    case CallMoveAssign(to, from) => to in w.holders && from in w.holders
    case CallRelease(id, _) => id in w.holders
    case CallScopeExit(id) => id in w.holders
  }

  function Step(r: Registry, w: World, c: Call): (result: Result)
    requires Consistent(r) && Custody(r, w) && Callable(w, c)
    ensures result.Done? ==> Custody(r, result.world)
  {
    match c
    case CallDefault => DeclareKeepsCustody(r, w); Done(Declare(w))
    case CallConstruct(classId, args) => Construct(r, w, classId, args)
    case CallMoveConstruct(from) => Done(MoveConstruct(r, w, from))
    case CallMoveAssign(to, from) => Done(MoveAssignStep(r, w, to, from))
    case CallRelease(id, asClass) => Release(r, w, id, asClass)
    case CallScopeExit(id) => Done(ScopeExit(r, w, id))
  }

  /** Stopped: a call aborted, or named a handle out of scope. */
  datatype Ending = Reached(world: World) | Stopped

  /** Over any run every object has exactly one fate so far. */
  ghost function Run(r: Registry, calls: seq<Call>): (e: Ending)
    requires Consistent(r)
    ensures e.Reached? ==> Custody(r, e.world)
  {
    if calls == [] then
      StartHasCustody(r);
      Reached(START)
    else
      match Run(r, calls[..|calls| - 1])
      case Stopped => Stopped
      case Reached(w) =>
        if !Callable(w, calls[|calls| - 1]) then Stopped
        else
          match Step(r, w, calls[|calls| - 1])
          case Aborted => Stopped
          case Done(x) => Reached(x)
  }

  lemma StartHasCustody(r: Registry)
    ensures Custody(r, START)
  {
    assert forall o: nat :: !Held(START, o);
  }

  /** Once every holder has gone out of scope, each object built was destroyed
      exactly once or released exactly once, never both. */
  lemma EveryObjectAccountedFor(r: Registry, calls: seq<Call>, obj: nat)
    requires Consistent(r) && Run(r, calls).Reached?
    requires Run(r, calls).world.holders == map[] && obj < Run(r, calls).world.nextObject
    ensures var w := Run(r, calls).world;
            (w.destroyed[obj] == 1 && w.released[obj] == 0) || (w.destroyed[obj] == 0 && w.released[obj] == 1)
  {
    assert !Held(Run(r, calls).world, obj);
  }

  /** A run aborts only where construct finds no constructor or no destructor, where an
      argument cannot be made or does not bind to the constructor found, or where release
      names another class: never in a destructor or an assignment. */
  lemma OnlyTheseAbort(r: Registry, w: World, c: Call)
    requires Consistent(r) && Custody(r, w) && Callable(w, c)
    ensures Step(r, w, c).Aborted? <==>
              || (c.CallConstruct? && !Constructible(r, c.classId, c.args))
              || (c.CallRelease? && w.holders[c.id].pointer.Some?
                  && w.holders[c.id].pointer.value.classId != c.asClass)
  {
  }

  // ----- What each call does -----

  /** The objects a handle holds: one or none. */
  function ObjectOf(h: Holder): set<nat> {
    if h.pointer.Some? then {h.pointer.value.obj} else {}
  }

  ghost predicate Fates(w: World, x: World, destroyed: set<nat>, released: set<nat>) {
    && x.live == w.live - destroyed && x.nextObject == w.nextObject
    && x.destroyed == w.destroyed + multiset(destroyed) && x.released == w.released + multiset(released)
  }

  /** DynamicObject(): a vacant handle. */
  lemma DefaultDoes(r: Registry, w: World)
    requires Consistent(r) && Custody(r, w)
    ensures var x := Step(r, w, CallDefault);
            && x.Done? && w.nextHolder !in w.holders && Fates(w, x.world, {}, {})
            && x.world.holders == w.holders[w.nextHolder := Holder(None, INVALID_INFO)]
  {
    DeclareKeepsCustody(r, w);
  }

  /** construct: a new handle with a new object of that class and the class's destructor;
      every other handle and object as before. */
  lemma ConstructDoes(r: Registry, w: World, classId: Info, args: seq<Argument>)
    requires Consistent(r) && Custody(r, w) && Constructible(r, classId, args)
    ensures var x := Step(r, w, CallConstruct(classId, args)); var obj := w.nextObject;
            && x.Done? && w.nextHolder !in w.holders && classId in r.destructorOf && !Held(w, obj)
            && x.world.holders == w.holders[w.nextHolder :=
                 Holder(Some(Pointer(classId, obj)), r.destructorOf[classId])]
            && x.world.live == w.live + {obj} && x.world.nextObject == obj + 1
            && x.world.destroyed == w.destroyed && x.world.released == w.released
  {
    DeclareKeepsCustody(r, w);
    NothingAhead(r, w);
  }

  /** DynamicObject(DynamicObject&&): a new handle takes pointer and destructor over, the
      source is vacant, and no object is touched. */
  lemma MoveConstructDoes(r: Registry, w: World, from: HolderId)
    requires Consistent(r) && Custody(r, w) && from in w.holders
    ensures var x := Step(r, w, CallMoveConstruct(from));
            && x.Done? && w.nextHolder !in w.holders && Fates(w, x.world, {}, {})
            && x.world.holders == w.holders[w.nextHolder := w.holders[from]][from := Holder(None, INVALID_INFO)]
  {
    DeclareKeepsCustody(r, w);
  }

  /** destroy() on any handle: nothing without an object or a destructor; an abort when the
      destructor is not one of the object's class; otherwise the object dies and the handle
      is vacant. */
  lemma DestroyDoes(r: Registry, w: World, id: HolderId)
    requires Deletable(w, id)
    ensures var h := w.holders[id];
            if h.pointer.None? || h.destructor == INVALID_INFO then DestroyStep(r, w, id) == Done(w)
            else if h.destructor !in r.declaredIn || r.declaredIn[h.destructor] != h.pointer.value.classId
            then DestroyStep(r, w, id) == Aborted
            else
              && DestroyStep(r, w, id).Done?
              && Fates(w, DestroyStep(r, w, id).world, ObjectOf(h), {})
              && DestroyStep(r, w, id).world.holders == w.holders[id := Holder(None, INVALID_INFO)]
  {
  }

  lemma DestroyInCustody(r: Registry, w: World, id: HolderId)
    requires Consistent(r) && Custody(r, w) && id in w.holders
    ensures Deletable(w, id) && DestroyStep(r, w, id).Done?
    ensures Fates(w, DestroyStep(r, w, id).world, ObjectOf(w.holders[id]), {})
    ensures DestroyStep(r, w, id).world.holders == w.holders[id := Holder(None, INVALID_INFO)]
  {
    assert HolderOk(r, w, id);
    DestroyKeepsCustody(r, w, id);
    DestroyDoes(r, w, id);
  }

  /** operator=(DynamicObject&&): the object held so far dies, the source is taken over and
      left vacant; assigning a handle to itself does nothing. */
  lemma MoveAssignDoes(r: Registry, w: World, to: HolderId, from: HolderId)
    requires Consistent(r) && Custody(r, w) && to in w.holders && from in w.holders
    ensures var x := Step(r, w, CallMoveAssign(to, from));
            && x.Done? && (to == from ==> x.world == w)
            && (to != from ==>
                  && Fates(w, x.world, ObjectOf(w.holders[to]), {})
                  && x.world.holders == w.holders[to := w.holders[from]][from := Holder(None, INVALID_INFO)])
  {
    DestroyInCustody(r, w, to);
  }

  /** release<T>(): aborts for another class than the held one; otherwise the object
      survives, counted as released, and the handle is vacant. */
  lemma ReleaseDoes(r: Registry, w: World, id: HolderId, asClass: Info)
    requires Consistent(r) && Custody(r, w) && id in w.holders
    ensures var x := Step(r, w, CallRelease(id, asClass)); var h := w.holders[id];
            && (x.Aborted? <==> h.pointer.Some? && h.pointer.value.classId != asClass)
            && (x.Done? ==>
                  && Fates(w, x.world, {}, ObjectOf(h))
                  && x.world.holders == w.holders[id := Holder(None, INVALID_INFO)])
  {
    if w.holders[id].pointer.None? {
      ReleaseVacant(r, w, id);
    }
  }

  /** ~DynamicObject: the handle is gone, and its object with it. */
  lemma ScopeExitDoes(r: Registry, w: World, id: HolderId)
    requires Consistent(r) && Custody(r, w) && id in w.holders
    ensures var x := Step(r, w, CallScopeExit(id));
            && x.Done? && Fates(w, x.world, ObjectOf(w.holders[id]), {}) && x.world.holders == w.holders - {id}
  {
    DestroyInCustody(r, w, id);
    assert w.holders[id := VACANT] - {id} == w.holders - {id};
  }

  // ----- The object form -----

  class Arena {
    var live: set<nat>
    ghost var destroyed: multiset<nat>

    constructor ()
      ensures live == {} && destroyed == multiset{}
    {
      live, destroyed := {}, multiset{};
    }
  }

  class DynamicObject {
    var pointer: Option<Pointer>
    var destructor: Info

    function View(): Holder
      reads this
    {
      Holder(pointer, destructor)
    }

    constructor Default()
      ensures View() == VACANT
    {
      pointer, destructor := None, INVALID_INFO;
    }

    constructor (pointer: Option<Pointer>, destructor: Info)
      ensures View() == Holder(pointer, destructor)
    {
      this.pointer, this.destructor := pointer, destructor;
    }

    /** DynamicObject(DynamicObject&&). */
    constructor Moved(other: DynamicObject)
      modifies other
      ensures View() == old(other.View()) && other.View() == VACANT
    {
      pointer := other.pointer;
      destructor := other.destructor;
      new;
      other.pointer := None;
      other.destructor := INVALID_INFO;
    }

    /** destroy(); false stands for std::abort. */
    method Destroy(r: Registry, arena: Arena, ghost w: World, ghost id: HolderId) returns (ok: bool)
      requires Deletable(w, id) && w.holders[id] == View() && arena.live == w.live && arena.destroyed == w.destroyed
      modifies this, arena
      ensures ok <==> DestroyStep(r, w, id).Done?
      ensures ok ==> var x := DestroyStep(r, w, id).world;
                     arena.live == x.live && arena.destroyed == x.destroyed && View() == x.holders[id]
    {
      if pointer.None? || destructor == INVALID_INFO {
        return true;
      }
      if destructor !in r.declaredIn || pointer.value.classId != r.declaredIn[destructor] {
        return false;
      }
      arena.live := arena.live - {pointer.value.obj};
      arena.destroyed := arena.destroyed + multiset{pointer.value.obj};
      pointer, destructor := None, INVALID_INFO;
      return true;
    }

    /** operator=(DynamicObject&&); false stands for std::abort. */
    method MoveAssign(other: DynamicObject, r: Registry, arena: Arena, ghost w: World, ghost id: HolderId,
                      ghost from: HolderId) returns (ok: bool)
      requires Deletable(w, id) && from in w.holders && (this == other <==> id == from)
      requires w.holders[id] == View() && w.holders[from] == other.View()
      requires arena.live == w.live && arena.destroyed == w.destroyed
      modifies this, other, arena
      ensures ok <==> MoveAssigned(r, w, id, from).Done?
      ensures ok ==> var x := MoveAssigned(r, w, id, from).world;
                     arena.live == x.live && arena.destroyed == x.destroyed
                     && View() == x.holders[id] && other.View() == x.holders[from]
    {
      if this != other {
        ok := Destroy(r, arena, w, id);
        if !ok {
          return;
        }
        pointer := other.pointer;
        other.pointer := None;
        destructor := other.destructor;
        other.destructor := INVALID_INFO;
      }
      ok := true;
    }

    /** release<T>(); None stands for the failed type assertion. */
    method Release(asClass: Info) returns (released: Option<Option<Pointer>>)
      modifies this
      ensures released.None? <==> old(pointer).Some? && old(pointer).value.classId != asClass
      ensures released.Some? ==> released.value == old(pointer) && View() == VACANT
      ensures released.None? ==> View() == old(View())
    {
      if pointer.Some? && pointer.value.classId != asClass {
        return None;
      }
      released := Some(pointer);
      pointer, destructor := None, INVALID_INFO;
    }
  }
}
