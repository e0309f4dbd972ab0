/** The handle table of the Flow bridge (bridge/flow/cmm_flow.cpp and
    bridge/flow/cmm_flow_ownership.cpp), as a state machine over its calls. */
module FlowHandles {
  import opened Core

  /** next_object_handle is a std::atomic<std::uint64_t>. */
  type Handle = nat

  /** A stored cmm::Value: a T* made by a constructor thunk, or a copied T. */
  datatype Stored =
    | Pointer(pointerType: Info, classId: Info, instance: nat)
    | Aggregate(aggregateType: Info)
  {
    function TypeId(): Info {
      if Pointer? then pointerType else aggregateType
    }

    function PointeeTypeId(): Info {
      if Pointer? then classId else INVALID_INFO
    }
  }

  datatype Role = Plain | Constructor | Destructor

  datatype Function = Function(role: Role, isStatic: bool, parent: Info, parameters: seq<Info>, returnType: Info)

  /** What the reflection registry answers.  others: ids of stored entities that are
      no functions; aggregates: the class and union types that travel by handle, which
      are all but std::span<const uint8_t>. */
  datatype Reflection = Reflection(functions: map<Info, Function>, others: set<Info>, destructorOf: map<Info, Info>,
                                   pointerTo: map<Info, Info>, aggregates: set<Info>, copyable: set<Info>)

  ghost predicate FunctionOk(r: Reflection, f: Function) {
    && (f.role != Plain ==>
          f.parent != INVALID_INFO && f.parent in r.pointerTo && r.pointerTo[f.parent] != INVALID_INFO)
    && (f.role == Destructor ==> f.parameters == [])
  }

  ghost predicate Coherent(r: Reflection) {
    && INVALID_INFO !in r.aggregates
    && (forall f | f in r.functions :: FunctionOk(r, r.functions[f]))
    && (forall c | c in r.destructorOf && r.destructorOf[c] != INVALID_INFO ::
          && r.destructorOf[c] in r.functions
          && r.functions[r.destructorOf[c]].role == Destructor && r.functions[r.destructorOf[c]].parent == c)
  }

  /** Pointer types are neither classes nor unions. */
  ghost predicate PointersApart(r: Reflection) {
    forall c | c in r.pointerTo :: r.pointerTo[c] !in r.aggregates
  }

  /** One cmm_flow_value; verdict is what decoding anything but an aggregate says. */
  datatype Argument = Argument(kindMatches: bool, bits: nat, verdict: Error)

  datatype Arguments = Null(count: nat) | Given(values: seq<Argument>)

  /** What the reflected call and the encoding of a plain result say. */
  datatype Outcome = Outcome(invoked: Error, encoded: Error)

  /** instances: how many objects constructor thunks have made; stores: how many
      values store_value has taken. */
  datatype Bridge = Bridge(objects: map<Handle, Stored>, next: nat, stores: nat,
                           live: set<nat>, instances: nat, destroyed: multiset<nat>)

  const START := Bridge(map[], 1, 0, {}, 0, multiset{})

  /** handle: the one written into *result, 0 when none is. */
  datatype Reply = Reply(bridge: Bridge, error: Error, handle: Handle)

  // ----- Pure queries -----

  predicate RequiresInstance(r: Reflection, f: Info) {
    f in r.functions && r.functions[f].parent != INVALID_INFO && !r.functions[f].isStatic
    && r.functions[f].role == Plain
  }

  predicate HasRole(r: Reflection, f: Info, role: Role) {
    f in r.functions && r.functions[f].role == role
  }

  function ParentOf(r: Reflection, f: Info): Info {
    if f in r.functions then r.functions[f].parent else INVALID_INFO
  }

  function ParametersOf(r: Reflection, f: Info): seq<Info> {
    if f in r.functions then r.functions[f].parameters else []
  }

  function ReturnTypeOf(r: Reflection, f: Info): Info {
    if f in r.functions then r.functions[f].returnType else INVALID_INFO
  }

  // ----- The table -----

  function Advance(s: Bridge): Bridge {
    s.(next := (s.next + 1) % WORD, stores := s.stores + 1)
  }

  /** store_value: unordered_map::emplace keeps an entry that is already there. */
  function StoreValue(s: Bridge, v: Stored): (Bridge, Handle) {
    if v.TypeId() == INVALID_INFO then (s, 0)
    else (Advance(s).(objects := if s.next in s.objects then s.objects else s.objects[s.next := v]), s.next)
  }

  function StoreObject(s: Bridge, v: Stored): (Bridge, Handle) {
    if v.PointeeTypeId() == INVALID_INFO then (s, 0) else StoreValue(s, v)
  }

  function Erase(s: Bridge, handle: Handle): Bridge {
    s.(objects := s.objects - {handle})
  }

  // ----- Decoding -----

  function Decode(r: Reflection, objects: map<Handle, Stored>, expected: Info, a: Argument): Error {
    if !a.kindMatches then InvalidArgumentType
    else if expected !in r.aggregates then a.verdict
    else if a.bits !in objects then NullValue
    else if objects[a.bits].TypeId() != expected then InvalidArgumentType
    else if expected !in r.copyable then NonCopyableValue
    else Success
  }

  /** The first refusal from argument i on. */
  function DecodeFrom(r: Reflection, objects: map<Handle, Stored>, types: seq<Info>, values: seq<Argument>, i: nat)
    : Error
    requires i <= |types| == |values|
    decreases |types| - i
  {
    if i == |types| then Success
    else if Decode(r, objects, types[i], values[i]) != Success then Decode(r, objects, types[i], values[i])
    else DecodeFrom(r, objects, types, values, i + 1)
  }

  function DecodeArguments(r: Reflection, objects: map<Handle, Stored>, types: seq<Info>, a: Arguments): Error {
    if |types| != (if a.Null? then a.count else |a.values|) then InvalidArgumentCount
    else if a.Null? then (if a.count == 0 then Success else NullValue)
    else DecodeFrom(r, objects, types, a.values, 0)
  }

  // ----- Calls -----

  function Fail(s: Bridge, e: Error): Reply {
    Reply(s, e, 0)
  }

  /** The class branch of encode_value: store a copy. */
  function Encode(r: Reflection, s: Bridge, returnType: Info, encoded: Error): Reply {
    if returnType !in r.aggregates then Fail(s, encoded)
    else if returnType !in r.copyable then Fail(s, NonCopyableValue)
    else
      var (x, handle) := StoreValue(s, Aggregate(returnType));
      if handle == 0 then Fail(x, TypeMismatch) else Reply(x, Success, handle)
  }

  /** `new ClassType(...)` in a constructor thunk. */
  function Build(s: Bridge): Bridge {
    s.(live := s.live + {s.instances}, instances := s.instances + 1)
  }

  function Keep(r: Reflection, s: Bridge, classId: Info): Reply
    requires classId in r.pointerTo
  {
    var (x, handle) := StoreObject(Build(s), Pointer(r.pointerTo[classId], classId, s.instances));
    if handle == 0 then Fail(x, TypeMismatch) else Reply(x, Success, handle)
  }

  /** cmm_flow_invoke. */
  function Invoke(r: Reflection, s: Bridge, f: Info, a: Arguments, hasResult: bool, outcome: Outcome): Reply
    requires Coherent(r)
  {
    if !hasResult then Fail(s, NullValue)
    else if RequiresInstance(r, f) || HasRole(r, f, Destructor) then Fail(s, InvalidArgumentCount)
    else
      var decoded := DecodeArguments(r, s.objects, ParametersOf(r, f), a);
      if decoded != Success then Fail(s, decoded)
      else if f !in r.functions then Fail(s, if f in r.others then NotInvocable else EntityNotFound)
      else if outcome.invoked != Success then Fail(s, outcome.invoked)
      else if r.functions[f].role == Constructor then Keep(r, s, r.functions[f].parent)
      else Encode(r, s, ReturnTypeOf(r, f), outcome.encoded)
  }

  /** A destructor thunk deletes the object it is given. */
  function Delete(s: Bridge, instance: nat): Bridge {
    s.(live := s.live - {instance}, destroyed := s.destroyed + multiset{instance})
  }

  /** cmm_flow_invoke_method. */
  function InvokeMethod(r: Reflection, s: Bridge, f: Info, handle: Handle, a: Arguments, hasResult: bool,
                        outcome: Outcome): Reply
    requires Coherent(r)
  {
    if !hasResult then Fail(s, NullValue)
    else if !RequiresInstance(r, f) && !HasRole(r, f, Destructor) then Fail(s, NotInvocable)
    else if handle !in s.objects then Fail(s, NullValue)
    else if s.objects[handle].PointeeTypeId() != ParentOf(r, f) then Fail(s, InvalidArgumentType)
    else
      var decoded := DecodeArguments(r, s.objects, ParametersOf(r, f), a);
      if decoded != Success then Fail(s, decoded)
      else if r.functions[f].role == Destructor then
        Reply(Erase(Delete(s, s.objects[handle].instance), handle), Success, 0)
      else if outcome.invoked != Success then Fail(s, outcome.invoked)
      else Encode(r, s, ReturnTypeOf(r, f), outcome.encoded)
  }

  /** cmm_flow_release_object. */
  function ReleaseObject(r: Reflection, s: Bridge, handle: Handle, typeId: Info): Reply
    requires Coherent(r)
  {
    if handle == 0 || typeId == INVALID_INFO then Fail(s, NullValue)
    else
      var destructor := if typeId in r.destructorOf then r.destructorOf[typeId] else INVALID_INFO;
      if destructor == INVALID_INFO then Fail(s, EntityNotFound)
      else InvokeMethod(r, s, destructor, handle, Null(0), true, Outcome(Success, Success))
  }

  /** cmm_flow_release_aggregate. */
  function ReleaseAggregate(s: Bridge, handle: Handle, typeId: Info): Reply {
    if handle !in s.objects then Fail(s, NullValue)
    else if s.objects[handle].TypeId() != typeId then Fail(s, InvalidArgumentType)
    else Reply(Erase(s, handle), Success, 0)
  }

  datatype Call =
    | CallInvoke(f: Info, a: Arguments, hasResult: bool, outcome: Outcome)
    | CallMethod(f: Info, handle: Handle, a: Arguments, hasResult: bool, outcome: Outcome)
    | CallReleaseObject(handle: Handle, typeId: Info)
    | CallReleaseAggregate(handle: Handle, typeId: Info)

  function Step(r: Reflection, s: Bridge, c: Call): Reply
    requires Coherent(r)
  {
    match c
    case CallInvoke(f, a, hasResult, outcome) => Invoke(r, s, f, a, hasResult, outcome)
    case CallMethod(f, handle, a, hasResult, outcome) => InvokeMethod(r, s, f, handle, a, hasResult, outcome)
    case CallReleaseObject(handle, typeId) => ReleaseObject(r, s, handle, typeId)
    case CallReleaseAggregate(handle, typeId) => ReleaseAggregate(s, handle, typeId)
  }

  function Run(r: Reflection, s: Bridge, calls: seq<Call>): Bridge
    requires Coherent(r)
    decreases |calls|
  {
    if calls == [] then s else Run(r, Step(r, s, calls[0]).bridge, calls[1..])
  }

  // ----- What every call does to the table -----

  ghost predicate Untouched(s: Bridge, x: Bridge) {
    x == s
  }

  /** One value stored under the next handle; everything else kept. */
  ghost predicate StoresOne(s: Bridge, x: Bridge, v: Stored) {
    && x.objects == (if s.next in s.objects then s.objects else s.objects[s.next := v])
    && x.next == (s.next + 1) % WORD && x.stores == s.stores + 1
  }

  ghost predicate SameHeap(s: Bridge, x: Bridge) {
    x.live == s.live && x.instances == s.instances && x.destroyed == s.destroyed
  }

  ghost predicate Constructs(r: Reflection, s: Bridge, x: Bridge, classId: Info) {
    && classId != INVALID_INFO && classId in r.pointerTo && r.pointerTo[classId] != INVALID_INFO
    && StoresOne(s, x, Pointer(r.pointerTo[classId], classId, s.instances))
    && x.live == s.live + {s.instances} && x.instances == s.instances + 1 && x.destroyed == s.destroyed
  }

  ghost predicate Copies(r: Reflection, s: Bridge, x: Bridge, type_: Info) {
    type_ in r.aggregates && StoresOne(s, x, Aggregate(type_)) && SameHeap(s, x)
  }

  ghost predicate Destroys(s: Bridge, x: Bridge, handle: Handle) {
    && handle in s.objects && s.objects[handle].Pointer?
    && x == Erase(Delete(s, s.objects[handle].instance), handle)
  }

  ghost predicate Drops(s: Bridge, x: Bridge, handle: Handle, typeId: Info) {
    handle in s.objects && s.objects[handle].TypeId() == typeId && x == Erase(s, handle)
  }

  /** The six things a call can do, and which call does them. */
  ghost predicate Effect(r: Reflection, s: Bridge, c: Call, x: Bridge) {
    || Untouched(s, x)
    || (c.CallInvoke? && HasRole(r, c.f, Constructor) && Constructs(r, s, x, ParentOf(r, c.f)))
    || ((c.CallInvoke? || c.CallMethod?) && Copies(r, s, x, ReturnTypeOf(r, c.f)))
    || (c.CallMethod? && HasRole(r, c.f, Destructor) && Destroys(s, x, c.handle))
    || (c.CallReleaseObject? && Destroys(s, x, c.handle))
    || (c.CallReleaseAggregate? && Drops(s, x, c.handle, c.typeId))
  }

  lemma MethodEffect(r: Reflection, s: Bridge, f: Info, handle: Handle, a: Arguments, hasResult: bool, outcome: Outcome)
    requires Coherent(r)
    ensures var x := InvokeMethod(r, s, f, handle, a, hasResult, outcome).bridge;
            || x == s
            || Copies(r, s, x, ReturnTypeOf(r, f))
            || (HasRole(r, f, Destructor) && Destroys(s, x, handle))
  {
    assert f in r.functions ==> FunctionOk(r, r.functions[f]);
  }

  lemma StepEffect(r: Reflection, s: Bridge, c: Call)
    requires Coherent(r)
    ensures Effect(r, s, c, Step(r, s, c).bridge)
  {
    match c {
      case CallInvoke(f, a, hasResult, outcome) =>
        assert f in r.functions ==> FunctionOk(r, r.functions[f]);
      case CallMethod(f, handle, a, hasResult, outcome) =>
        MethodEffect(r, s, f, handle, a, hasResult, outcome);
      case CallReleaseObject(handle, typeId) =>
        if handle != 0 && typeId in r.destructorOf && r.destructorOf[typeId] != INVALID_INFO {
          MethodEffect(r, s, r.destructorOf[typeId], handle, Null(0), true, Outcome(Success, Success));
        }
      case CallReleaseAggregate(handle, typeId) =>
    }
  }

  // ----- The invariant -----

  /** Handle h names a live object, or is a copy of a class or union. */
  ghost predicate EntryOk(r: Reflection, s: Bridge, v: Stored) {
    match v
    case Pointer(p, c, n) => n in s.live && c in r.pointerTo && r.pointerTo[c] == p
    case Aggregate(t) => t in r.aggregates
  }

  ghost predicate Names(s: Bridge, h: Handle, n: nat) {
    h in s.objects && s.objects[h].Pointer? && s.objects[h].instance == n
  }

  ghost predicate Bounded(s: Bridge) {
    s.stores < WORD - 1 && s.next == s.stores + 1 && forall h | h in s.objects :: 1 <= h <= s.stores
  }

  /** Every object ever made is live, or was destroyed exactly once. */
  ghost predicate Accounted(s: Bridge) {
    && (forall n | n in s.live :: n < s.instances)
    && (forall n: nat :: s.destroyed[n] == if n < s.instances && n !in s.live then 1 else 0)
  }

  ghost predicate OneHandleEach(s: Bridge) {
    forall g, h, n | Names(s, g, n) && Names(s, h, n) :: g == h
  }

  ghost predicate Sound(r: Reflection, s: Bridge) {
    && Bounded(s)
    && Accounted(s)
    && OneHandleEach(s)
    && (forall h | h in s.objects :: EntryOk(r, s, s.objects[h]))
  }

  lemma StoreSound(r: Reflection, s: Bridge, x: Bridge, v: Stored)
    requires Sound(r, s) && StoresOne(s, x, v) && x.stores < WORD - 1
    ensures s.next !in s.objects && x.objects == s.objects[s.next := v] && Bounded(x)
  {
  }

  lemma ConstructSound(r: Reflection, s: Bridge, x: Bridge, classId: Info)
    requires Sound(r, s) && Constructs(r, s, x, classId) && x.stores < WORD - 1
    ensures Sound(r, x)
  {
    StoreSound(r, s, x, Pointer(r.pointerTo[classId], classId, s.instances));
    assert forall h | h in s.objects :: EntryOk(r, s, s.objects[h]);
    assert forall h, n :: Names(x, h, n) <==> Names(s, h, n) || (h == s.next && n == s.instances);
  }

  lemma CopySound(r: Reflection, s: Bridge, x: Bridge, type_: Info)
    requires Sound(r, s) && Copies(r, s, x, type_) && x.stores < WORD - 1
    ensures Sound(r, x)
  {
    StoreSound(r, s, x, Aggregate(type_));
    assert forall h, n :: Names(x, h, n) <==> Names(s, h, n);
  }

  lemma DestroySound(r: Reflection, s: Bridge, x: Bridge, handle: Handle)
    requires Sound(r, s) && Destroys(s, x, handle)
    ensures Sound(r, x)
  {
    var gone := s.objects[handle].instance;
    assert Names(s, handle, gone);
    assert forall h, n | Names(x, h, n) :: Names(s, h, n);
    forall h | h in x.objects ensures EntryOk(r, x, x.objects[h]) {
      assert EntryOk(r, s, s.objects[h]);
      if s.objects[h].Pointer? {
        assert Names(s, h, s.objects[h].instance);
      }
    }
    assert EntryOk(r, s, s.objects[handle]);
  }

  lemma DropSound(r: Reflection, s: Bridge, x: Bridge, handle: Handle, typeId: Info)
    requires Sound(r, s) && Drops(s, x, handle, typeId)
    ensures Sound(r, x)
  {
    assert forall h, n | Names(x, h, n) :: Names(s, h, n);
    assert forall h | h in x.objects :: EntryOk(r, s, s.objects[h]);
  }

  lemma StepSound(r: Reflection, s: Bridge, c: Call)
    requires Coherent(r) && Sound(r, s) && Step(r, s, c).bridge.stores < WORD - 1
    ensures Sound(r, Step(r, s, c).bridge)
  {
    var x := Step(r, s, c).bridge;
    StepEffect(r, s, c);
    if x != s {
      if c.CallReleaseAggregate? {
        DropSound(r, s, x, c.handle, c.typeId);
      } else if c.CallReleaseObject? {
        DestroySound(r, s, x, c.handle);
      } else if Copies(r, s, x, ReturnTypeOf(r, c.f)) {
        CopySound(r, s, x, ReturnTypeOf(r, c.f));
      } else if c.CallMethod? {
        DestroySound(r, s, x, c.handle);
      } else {
        ConstructSound(r, s, x, ParentOf(r, c.f));
      }
    }
  }

  lemma StoresGrow(r: Reflection, s: Bridge, c: Call)
    requires Coherent(r)
    ensures s.stores <= Step(r, s, c).bridge.stores <= s.stores + 1
  {
    StepEffect(r, s, c);
  }

  lemma {:induction false} RunGrows(r: Reflection, s: Bridge, calls: seq<Call>)
    requires Coherent(r)
    ensures s.stores <= Run(r, s, calls).stores
    decreases |calls|
  {
    if calls != [] {
      StoresGrow(r, s, calls[0]);
      RunGrows(r, Step(r, s, calls[0]).bridge, calls[1..]);
    }
  }

  /** Over any run of fewer than 2^64 - 1 stores, no handle dangles, no object has
      two handles, and no object is destroyed twice. */
  lemma {:induction false} RunsStaySound(r: Reflection, s: Bridge, calls: seq<Call>)
    requires Coherent(r) && Sound(r, s) && Run(r, s, calls).stores < WORD - 1
    ensures Sound(r, Run(r, s, calls))
    decreases |calls|
  {
    if calls != [] {
      RunGrows(r, Step(r, s, calls[0]).bridge, calls[1..]);
      StepSound(r, s, calls[0]);
      RunsStaySound(r, Step(r, s, calls[0]).bridge, calls[1..]);
    }
  }

  lemma StartSound(r: Reflection)
    ensures Sound(r, START)
  {
  }

  // ----- Handles are never reused -----

  /** A successful call that answers a handle answers a new one. */
  lemma HandlesAreFresh(r: Reflection, s: Bridge, c: Call)
    requires Coherent(r) && Sound(r, s)
    ensures var p := Step(r, s, c);
            p.handle != 0 ==> p.handle == s.stores + 1 && p.error == Success
                              && p.handle !in s.objects && p.handle in p.bridge.objects
  {
    StepEffect(r, s, c);
  }

  lemma {:induction false} GoneForGood(r: Reflection, s: Bridge, calls: seq<Call>, h: Handle)
    requires Coherent(r) && Sound(r, s) && Run(r, s, calls).stores < WORD - 1
    requires h <= s.stores && h !in s.objects
    ensures h !in Run(r, s, calls).objects
    decreases |calls|
  {
    if calls != [] {
      RunGrows(r, Step(r, s, calls[0]).bridge, calls[1..]);
      StepSound(r, s, calls[0]);
      StepEffect(r, s, calls[0]);
      GoneForGood(r, Step(r, s, calls[0]).bridge, calls[1..], h);
    }
  }

  /** A handle that does not resolve: every release and every method call on it
      fails and runs nothing. */
  lemma NoSecondRelease(r: Reflection, s: Bridge, h: Handle, f: Info, typeId: Info, a: Arguments, hasResult: bool,
                        outcome: Outcome)
    requires Coherent(r) && h !in s.objects
    ensures ReleaseObject(r, s, h, typeId).error != Success && ReleaseObject(r, s, h, typeId).bridge == s
    ensures ReleaseAggregate(s, h, typeId) == Reply(s, NullValue, 0)
    ensures InvokeMethod(r, s, f, h, a, hasResult, outcome).error != Success
            && InvokeMethod(r, s, f, h, a, hasResult, outcome).bridge == s
  {
  }

  /** After release_object succeeds, whatever the program does next, releasing
      again fails without destroying anything. */
  lemma ReleasedOnce(r: Reflection, s: Bridge, h: Handle, typeId: Info, calls: seq<Call>, again: Info)
    requires Coherent(r) && Sound(r, s) && ReleaseObject(r, s, h, typeId).error == Success
    requires Run(r, ReleaseObject(r, s, h, typeId).bridge, calls).stores < WORD - 1
    ensures h in s.objects && s.objects[h].Pointer? && s.objects[h].classId == typeId
    ensures ReleaseObject(r, s, h, typeId).bridge.destroyed == s.destroyed + multiset{s.objects[h].instance}
    ensures var x := Run(r, ReleaseObject(r, s, h, typeId).bridge, calls);
            ReleaseObject(r, x, h, again).error != Success && ReleaseObject(r, x, h, again).bridge == x
  {
    var c := CallReleaseObject(h, typeId);
    var x := Step(r, s, c).bridge;
    StepEffect(r, s, c);
    RunGrows(r, x, calls);
    StepSound(r, s, c);
    assert FunctionOk(r, r.functions[r.destructorOf[typeId]]);
    GoneForGood(r, x, calls, h);
    NoSecondRelease(r, Run(r, x, calls), h, typeId, again, Null(0), true, Outcome(Success, Success));
  }

  // ----- Failing calls -----

  /** The value a call of f gives would be stored: an object, or a class or union
      returned by value that can be copied. */
  predicate StoredResult(r: Reflection, f: Info) {
    HasRole(r, f, Constructor) || (ReturnTypeOf(r, f) in r.aggregates && ReturnTypeOf(r, f) in r.copyable)
  }

  /** The guards a call passes on its way to store_value. */
  predicate ComesToStore(r: Reflection, s: Bridge, c: Call) {
    match c
    case CallInvoke(f, a, hasResult, outcome) =>
      && hasResult && f in r.functions && !RequiresInstance(r, f) && !HasRole(r, f, Destructor)
      && DecodeArguments(r, s.objects, ParametersOf(r, f), a) == Success
      && outcome.invoked == Success && StoredResult(r, f)
    case CallMethod(f, handle, a, hasResult, outcome) =>
      && hasResult && RequiresInstance(r, f)
      && handle in s.objects && s.objects[handle].PointeeTypeId() == ParentOf(r, f)
      && DecodeArguments(r, s.objects, ParametersOf(r, f), a) == Success
      && outcome.invoked == Success && StoredResult(r, f)
    case CallReleaseObject(_, _) => false
    case CallReleaseAggregate(_, _) => false
  }

  /** Exactly these calls use up a handle. */
  lemma StoresIff(r: Reflection, s: Bridge, c: Call)
    requires Coherent(r)
    ensures Step(r, s, c).bridge.stores == s.stores + (if ComesToStore(r, s, c) then 1 else 0)
  {
    if c.CallInvoke? || c.CallMethod? {
      assert c.f in r.functions ==> FunctionOk(r, r.functions[c.f]);
    } else {
      StepEffect(r, s, c);
    }
  }

  /** A call reports an error and yet changes the bridge exactly when it comes to
      storing a value at the moment the counter has wrapped to 0. */
  lemma FailuresChangeNothing(r: Reflection, s: Bridge, c: Call)
    requires Coherent(r)
    ensures Step(r, s, c).error != Success && Step(r, s, c).bridge != s <==> s.next == 0 && ComesToStore(r, s, c)
  {
    StepEffect(r, s, c);
    StoresIff(r, s, c);
    if c.CallInvoke? || c.CallMethod? {
      assert c.f in r.functions ==> FunctionOk(r, r.functions[c.f]);
    } else if c.CallReleaseObject? && Step(r, s, c).bridge != s {
      assert FunctionOk(r, r.functions[r.destructorOf[c.typeId]]);
    }
  }

  /** So within 2^64 - 1 stores failing calls leave everything unchanged. */
  lemma SoundFailures(r: Reflection, s: Bridge, c: Call)
    requires Coherent(r) && Sound(r, s) && Step(r, s, c).error != Success
    ensures Step(r, s, c).bridge == s
  {
    FailuresChangeNothing(r, s, c);
  }

  /** The input that shows it: after 2^64 - 1 stores a constructor call answers
      TypeMismatch although its object is alive and stored, under handle 0, which
      release_object refuses. */
  lemma WrapMisreports(r: Reflection, s: Bridge, f: Info, typeId: Info)
    requires Coherent(r) && s.next == 0 && 0 !in s.objects && HasRole(r, f, Constructor) && ParametersOf(r, f) == []
    ensures var p := Invoke(r, s, f, Null(0), true, Outcome(Success, Success));
            && p.error == TypeMismatch && s.instances in p.bridge.live && Names(p.bridge, 0, s.instances)
            && ReleaseObject(r, p.bridge, 0, typeId).error == NullValue
  {
    assert FunctionOk(r, r.functions[f]);
  }

  // ----- Objects and handles -----

  /** Every live object can still be reached through a handle. */
  ghost predicate NoLeak(s: Bridge) {
    forall n | n in s.live :: exists h :: Names(s, h, n)
  }

  /** The one call that loses an object: release_aggregate on an object handle,
      given the id of the pointer type stored there. */
  predicate Loses(s: Bridge, c: Call) {
    c.CallReleaseAggregate? && c.handle in s.objects && s.objects[c.handle].Pointer?
    && c.typeId == s.objects[c.handle].pointerType
  }

  lemma LossLeaks(r: Reflection, s: Bridge, c: Call)
    requires Coherent(r) && Sound(r, s) && Loses(s, c)
    ensures var n := s.objects[c.handle].instance; var x := Step(r, s, c).bridge;
            Step(r, s, c).error == Success && n in x.live && n !in x.destroyed && forall h :: !Names(x, h, n)
  {
    var n := s.objects[c.handle].instance;
    assert EntryOk(r, s, s.objects[c.handle]);
    assert Names(s, c.handle, n);
    var x := Step(r, s, c).bridge;
    assert forall h, m | Names(x, h, m) :: Names(s, h, m) && h != c.handle;
  }

  /** The shortest losing program: construct, then release_aggregate with the id of
      the pointer type. */
  lemma MisreleaseLeaks(r: Reflection, f: Info)
    requires Coherent(r) && HasRole(r, f, Constructor) && ParametersOf(r, f) == []
    ensures var x := Step(r, START, CallInvoke(f, Null(0), true, Outcome(Success, Success))).bridge;
            var y := Step(r, x, CallReleaseAggregate(1, r.pointerTo[ParentOf(r, f)]));
            y.error == Success && 0 in y.bridge.live && y.bridge.objects == map[]
  {
    assert FunctionOk(r, r.functions[f]);
  }

  lemma NoLossNoLeak(r: Reflection, s: Bridge, c: Call)
    requires Coherent(r) && Sound(r, s) && NoLeak(s) && !Loses(s, c) && Step(r, s, c).bridge.stores < WORD - 1
    ensures NoLeak(Step(r, s, c).bridge)
  {
    var x := Step(r, s, c).bridge;
    StepEffect(r, s, c);
    forall n | n in x.live ensures exists h :: Names(x, h, n) {
      if n in s.live {
        var h :| Names(s, h, n);
        if x.stores == s.stores + 1 {
          assert s.next !in s.objects;
        }
        assert Names(x, h, n);
      } else {
        assert Names(x, s.next, n);
      }
    }
  }

  /** Exactly which calls lose an object. */
  lemma LeakIff(r: Reflection, s: Bridge, c: Call)
    requires Coherent(r) && Sound(r, s) && NoLeak(s) && Step(r, s, c).bridge.stores < WORD - 1
    ensures NoLeak(Step(r, s, c).bridge) <==> !Loses(s, c)
  {
    if Loses(s, c) {
      LossLeaks(r, s, c);
    } else {
      NoLossNoLeak(r, s, c);
    }
  }

  lemma KeepsObjects(r: Reflection, s: Bridge, c: Call)
    requires PointersApart(r) && Sound(r, s) && (c.CallReleaseAggregate? ==> c.typeId in r.aggregates)
    ensures !Loses(s, c)
  {
    assert c.CallReleaseAggregate? && c.handle in s.objects ==> EntryOk(r, s, s.objects[c.handle]);
  }

  /** Callers that give release_aggregate only class and union type ids. */
  ghost predicate Disciplined(r: Reflection, calls: seq<Call>) {
    forall c | c in calls && c.CallReleaseAggregate? :: c.typeId in r.aggregates
  }

  /** Then live objects and object handles stay one to one. */
  lemma {:induction false} HandlesMatchObjects(r: Reflection, s: Bridge, calls: seq<Call>)
    requires Coherent(r) && PointersApart(r) && Sound(r, s) && NoLeak(s) && Disciplined(r, calls)
    requires Run(r, s, calls).stores < WORD - 1
    ensures Sound(r, Run(r, s, calls)) && NoLeak(Run(r, s, calls))
    decreases |calls|
  {
    if calls != [] {
      var c := calls[0];
      RunGrows(r, Step(r, s, c).bridge, calls[1..]);
      KeepsObjects(r, s, c);
      StepSound(r, s, c);
      NoLossNoLeak(r, s, c);
      HandlesMatchObjects(r, Step(r, s, c).bridge, calls[1..]);
    }
  }

  /** An object handle leaves the table only through the destructor of its object,
      or through the losing call. */
  lemma ObjectHandleLeaves(r: Reflection, s: Bridge, c: Call, h: Handle)
    requires Coherent(r) && Sound(r, s) && h in s.objects && s.objects[h].Pointer?
    requires h !in Step(r, s, c).bridge.objects
    ensures !c.CallInvoke? && c.handle == h
    ensures Loses(s, c) || Destroys(s, Step(r, s, c).bridge, h)
  {
    StepEffect(r, s, c);
  }

  /** With every handle released, no object is left and each was destroyed once. */
  lemma AllReleased(r: Reflection, calls: seq<Call>, n: nat)
    requires Coherent(r) && PointersApart(r) && Disciplined(r, calls) && Run(r, START, calls).stores < WORD - 1
    requires Run(r, START, calls).objects == map[] && n < Run(r, START, calls).instances
    ensures Run(r, START, calls).destroyed[n] == 1
  {
    StartSound(r);
    HandlesMatchObjects(r, START, calls);
    assert n !in Run(r, START, calls).live;
  }

  // ----- Aggregate arguments -----

  /** decode_arguments accepts exactly when every argument decodes, and otherwise
      answers the first refusal. */
  lemma {:induction false} FirstRefusal(r: Reflection, objects: map<Handle, Stored>, types: seq<Info>,
                                        values: seq<Argument>, i: nat)
    requires i <= |types| == |values|
    ensures DecodeFrom(r, objects, types, values, i) == Success <==>
              forall k | i <= k < |types| :: Decode(r, objects, types[k], values[k]) == Success
    ensures DecodeFrom(r, objects, types, values, i) != Success ==>
              exists k :: i <= k < |types|
                          && DecodeFrom(r, objects, types, values, i) == Decode(r, objects, types[k], values[k])
                          && forall j | i <= j < k :: Decode(r, objects, types[j], values[j]) == Success
    decreases |types| - i
  {
    if i < |types| {
      FirstRefusal(r, objects, types, values, i + 1);
    }
  }

  /** What a function returned by value can be passed back for as long as its
      handle is not released. */
  lemma ReturnedAggregateIsAccepted(r: Reflection, s: Bridge, returnType: Info, encoded: Error, later: Bridge)
    requires Sound(r, s) && returnType in r.aggregates && INVALID_INFO !in r.aggregates && returnType in r.copyable
    requires var p := Encode(r, s, returnType, encoded);
             p.handle in later.objects && p.bridge.objects[p.handle] == later.objects[p.handle]
    ensures var p := Encode(r, s, returnType, encoded);
            p.error == Success && Decode(r, later.objects, returnType, Argument(true, p.handle, encoded)) == Success
  {
  }

  // ----- The object form -----

  class FlowBridge {
    var objects: map<Handle, Stored>
    var nextHandle: nat
    ghost var stores: nat
    var live: set<nat>
    var instances: nat
    ghost var destroyed: multiset<nat>

    ghost function View(): Bridge
      reads this
    {
      Bridge(objects, nextHandle, stores, live, instances, destroyed)
    }

    constructor ()
      ensures View() == START
    {
      objects, nextHandle, stores := map[], 1, 0;
      live, instances, destroyed := {}, 0, multiset{};
    }

    method Store(v: Stored) returns (handle: Handle)
      modifies this
      ensures (View(), handle) == StoreValue(old(View()), v)
    {
      if v.TypeId() == INVALID_INFO {
        return 0;
      }
      handle := nextHandle;
      nextHandle := (nextHandle + 1) % WORD;
      stores := stores + 1;
      if handle !in objects {
        objects := objects[handle := v];
      }
    }

    method StoreConstructed(v: Stored) returns (handle: Handle)
      modifies this
      ensures (View(), handle) == StoreObject(old(View()), v)
    {
      if v.PointeeTypeId() == INVALID_INFO {
        return 0;
      }
      handle := Store(v);
    }

    method EraseHandle(handle: Handle)
      modifies this
      ensures View() == Erase(old(View()), handle)
    {
      objects := objects - {handle};
    }

    method DecodeAll(r: Reflection, types: seq<Info>, a: Arguments) returns (e: Error)
      ensures e == DecodeArguments(r, objects, types, a)
    {
      if |types| != (if a.Null? then a.count else |a.values|) {
        return InvalidArgumentCount;
      }
      if a.Null? {
        return if a.count == 0 then Success else NullValue;
      }
      for i := 0 to |types|
        invariant DecodeFrom(r, objects, types, a.values, 0) == DecodeFrom(r, objects, types, a.values, i)
      {
        e := Decode(r, objects, types[i], a.values[i]);
        if e != Success {
          return;
        }
      }
      e := Success;
    }

    method EncodeResult(r: Reflection, returnType: Info, encoded: Error) returns (e: Error, handle: Handle)
      modifies this
      ensures Reply(View(), e, handle) == Encode(r, old(View()), returnType, encoded)
    {
      if returnType !in r.aggregates {
        return encoded, 0;
      }
      if returnType !in r.copyable {
        return NonCopyableValue, 0;
      }
      handle := Store(Aggregate(returnType));
      e := if handle == 0 then TypeMismatch else Success;
    }

    method Call(r: Reflection, f: Info, a: Arguments, hasResult: bool, outcome: Outcome)
      returns (e: Error, handle: Handle)
      requires Coherent(r)
      modifies this
      ensures Reply(View(), e, handle) == Invoke(r, old(View()), f, a, hasResult, outcome)
    {
      handle := 0;
      if !hasResult {
        return NullValue, 0;
      }
      if RequiresInstance(r, f) || HasRole(r, f, Destructor) {
        return InvalidArgumentCount, 0;
      }
      e := DecodeAll(r, ParametersOf(r, f), a);
      if e != Success {
        return;
      }
      if f !in r.functions {
        return if f in r.others then NotInvocable else EntityNotFound, 0;
      }
      if outcome.invoked != Success {
        return outcome.invoked, 0;
      }
      if r.functions[f].role == Constructor {
        assert FunctionOk(r, r.functions[f]);
        var classId := r.functions[f].parent;
        var instance := instances;
        live, instances := live + {instance}, instance + 1;
        handle := StoreConstructed(Pointer(r.pointerTo[classId], classId, instance));
        e := if handle == 0 then TypeMismatch else Success;
        return;
      }
      e, handle := EncodeResult(r, ReturnTypeOf(r, f), outcome.encoded);
    }

    method CallOn(r: Reflection, f: Info, handle: Handle, a: Arguments, hasResult: bool, outcome: Outcome)
      returns (e: Error, result: Handle)
      requires Coherent(r)
      modifies this
      ensures Reply(View(), e, result) == InvokeMethod(r, old(View()), f, handle, a, hasResult, outcome)
    {
      result := 0;
      if !hasResult {
        return NullValue, 0;
      }
      if !RequiresInstance(r, f) && !HasRole(r, f, Destructor) {
        return NotInvocable, 0;
      }
      if handle !in objects {
        return NullValue, 0;
      }
      if objects[handle].PointeeTypeId() != ParentOf(r, f) {
        return InvalidArgumentType, 0;
      }
      e := DecodeAll(r, ParametersOf(r, f), a);
      if e != Success {
        return;
      }
      if r.functions[f].role == Destructor {
        assert FunctionOk(r, r.functions[f]);
        var instance := objects[handle].instance;
        live := live - {instance};
        destroyed := destroyed + multiset{instance};
        EraseHandle(handle);
        return Success, 0;
      }
      if outcome.invoked != Success {
        return outcome.invoked, 0;
      }
      e, result := EncodeResult(r, ReturnTypeOf(r, f), outcome.encoded);
    }

    method ReleaseInstance(r: Reflection, handle: Handle, typeId: Info) returns (e: Error)
      requires Coherent(r)
      modifies this
      ensures View() == ReleaseObject(r, old(View()), handle, typeId).bridge
      ensures e == ReleaseObject(r, old(View()), handle, typeId).error
    {
      if handle == 0 || typeId == INVALID_INFO {
        return NullValue;
      }
      var destructor := if typeId in r.destructorOf then r.destructorOf[typeId] else INVALID_INFO;
      if destructor == INVALID_INFO {
        return EntityNotFound;
      }
      var ignored;
      e, ignored := CallOn(r, destructor, handle, Null(0), true, Outcome(Success, Success));
    }

    method ReleaseCopy(handle: Handle, typeId: Info) returns (e: Error)
      modifies this
      ensures Reply(View(), e, 0) == ReleaseAggregate(old(View()), handle, typeId)
    {
      if handle !in objects {
        return NullValue;
      }
      if objects[handle].TypeId() != typeId {
        return InvalidArgumentType;
      }
      EraseHandle(handle);
      e := Success;
    }
  }
}
