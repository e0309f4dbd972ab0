/** What each call of the Flow bridge (bridge/flow/cmm_flow.cpp and
    bridge/flow/cmm_flow_ownership.cpp) answers: which calls succeed, with which result,
    and what each refusal means. */
module FlowAnswers {
  import opened Core
  import opened FlowHandles

  /** A member function that is neither static nor a constructor or destructor. */
  predicate OnInstance(fn: Function) {
    fn.role.Plain? && !fn.isStatic && fn.parent != INVALID_INFO
  }

  // ----- The table -----

  /** What store_value and store_object leave and answer, in every state: a value without
      a type id, and an object without a class id, are not stored and have handle 0;
      any other takes the next number, modulo 2^64, unless that slot is occupied. */
  lemma StoreAnswers(s: Bridge, v: Stored)
    ensures StoreValue(s, v) ==
              if v == Aggregate(INVALID_INFO) || (v.Pointer? && v.pointerType == INVALID_INFO) then (s, 0)
              else (Bridge(if s.next in s.objects then s.objects else s.objects[s.next := v],
                           (s.next + 1) % WORD,
                           s.stores + 1, s.live, s.instances, s.destroyed), s.next)
    ensures v.Aggregate? || v.classId == INVALID_INFO ==> StoreObject(s, v) == (s, 0)
    ensures v.Pointer? && v.classId != INVALID_INFO ==> StoreObject(s, v) == StoreValue(s, v)
  {
  }

  // ----- Arguments -----

  /** An argument is taken for a parameter: the kinds agree, a class or union is a stored
      value of that very type which can be copied, anything else is decoded. */
  ghost predicate Taken(r: Reflection, s: Bridge, expected: Info, a: Argument) {
    && a.kindMatches
    && (expected in r.aggregates ==>
          && a.bits in s.objects && expected in r.copyable
          && match s.objects[a.bits]
             case Pointer(pointerType, _, _) => pointerType == expected
             case Aggregate(aggregateType) => aggregateType == expected)
    && (expected !in r.aggregates ==> a.verdict == Success)
  }

  /** What decoding one argument answers. */
  lemma DecodeAnswers(r: Reflection, s: Bridge, expected: Info, a: Argument)
    ensures Decode(r, s.objects, expected, a) == Success <==> Taken(r, s, expected, a)
    ensures !a.kindMatches ==> Decode(r, s.objects, expected, a) == InvalidArgumentType
    ensures a.kindMatches && expected !in r.aggregates ==> Decode(r, s.objects, expected, a) == a.verdict
    ensures a.kindMatches && expected in r.aggregates && a.bits !in s.objects ==>
              Decode(r, s.objects, expected, a) == NullValue
    ensures a.kindMatches && expected in r.aggregates && a.bits in s.objects
            && s.objects[a.bits] == Aggregate(expected) ==>
              Decode(r, s.objects, expected, a) == if expected in r.copyable then Success else NonCopyableValue
    ensures a.kindMatches && expected in r.aggregates && a.bits in s.objects
            && s.objects[a.bits].Aggregate? && s.objects[a.bits].aggregateType != expected ==>
              Decode(r, s.objects, expected, a) == InvalidArgumentType
  {
  }

  function CountOf(a: Arguments): nat {
    match a
    case Null(count) => count
    case Given(values) => |values|
  }

  /** All arguments are taken; a null argument array is one of none. */
  ghost predicate AllTaken(r: Reflection, s: Bridge, types: seq<Info>, a: Arguments) {
    && CountOf(a) == |types|
    && match a
       case Null(count) => count == 0
       case Given(values) => forall i | 0 <= i < |values| :: i < |types| ==> Taken(r, s, types[i], values[i])
  }

  lemma ArgumentsAnswer(r: Reflection, s: Bridge, types: seq<Info>, a: Arguments)
    ensures DecodeArguments(r, s.objects, types, a) == Success <==> AllTaken(r, s, types, a)
    ensures CountOf(a) != |types| ==> DecodeArguments(r, s.objects, types, a) == InvalidArgumentCount
    ensures CountOf(a) == |types| > 0 && a.Null? ==> DecodeArguments(r, s.objects, types, a) == NullValue
  {
    if CountOf(a) == |types| && a.Given? {
      FirstRefusal(r, s.objects, types, a.values, 0);
      forall i | 0 <= i < |types|
        ensures Decode(r, s.objects, types[i], a.values[i]) == Success <==> Taken(r, s, types[i], a.values[i])
      {
        DecodeAnswers(r, s, types[i], a.values[i]);
      }
    }
  }

  // ----- Results -----

  /** A value of that type can be given back: a class or union by a copy under a new
      handle, anything else as its encoding says. */
  predicate GivenBack(r: Reflection, s: Bridge, returnType: Info, encoded: Error) {
    if returnType in r.aggregates then returnType in r.copyable && s.next != 0 else encoded == Success
  }

  /** The reply to a call that got through with a result of that type. */
  ghost predicate ResultReply(r: Reflection, s: Bridge, returnType: Info, encoded: Error, p: Reply) {
    if returnType !in r.aggregates then p == Reply(s, encoded, 0)
    else if returnType !in r.copyable then p == Reply(s, NonCopyableValue, 0)
    else
      && StoresOne(s, p.bridge, Aggregate(returnType)) && SameHeap(s, p.bridge)
      && p.error == (if s.next == 0 then TypeMismatch else Success) && p.handle == s.next
  }

  lemma EncodeReplies(r: Reflection, s: Bridge, returnType: Info, encoded: Error)
    requires Coherent(r)
    ensures ResultReply(r, s, returnType, encoded, Encode(r, s, returnType, encoded))
    ensures Encode(r, s, returnType, encoded).error == Success <==> GivenBack(r, s, returnType, encoded)
  {
  }

  /** The reply of a constructor: its object is made, and stored under the next handle. */
  ghost predicate ObjectReply(r: Reflection, s: Bridge, classId: Info, p: Reply) {
    && Constructs(r, s, p.bridge, classId)
    && p.error == (if s.next == 0 then TypeMismatch else Success) && p.handle == s.next
  }

  // ----- cmm_flow_invoke -----

  /** The call reaches the reflected function. */
  ghost predicate Reaches(r: Reflection, s: Bridge, f: Info, a: Arguments, hasResult: bool) {
    && hasResult && f in r.functions && !OnInstance(r.functions[f]) && !r.functions[f].role.Destructor?
    && AllTaken(r, s, r.functions[f].parameters, a)
  }

  /** What cmm_flow_invoke answers when the function has been reached. */
  lemma InvokeReplies(r: Reflection, s: Bridge, f: Info, a: Arguments, outcome: Outcome)
    requires Coherent(r) && Reaches(r, s, f, a, true)
    ensures var p, fn := Step(r, s, CallInvoke(f, a, true, outcome)), r.functions[f];
            if outcome.invoked != Success then p == Reply(s, outcome.invoked, 0)
            else if fn.role.Constructor? then ObjectReply(r, s, fn.parent, p)
            else ResultReply(r, s, fn.returnType, outcome.encoded, p)
  {
    assert FunctionOk(r, r.functions[f]);
    ArgumentsAnswer(r, s, r.functions[f].parameters, a);
    EncodeReplies(r, s, r.functions[f].returnType, outcome.encoded);
  }

  /** What it answers when it has not: the first guard that fails, and nothing changes. */
  lemma InvokeRefuses(r: Reflection, s: Bridge, f: Info, a: Arguments, hasResult: bool, outcome: Outcome)
    requires Coherent(r) && !Reaches(r, s, f, a, hasResult)
    ensures var p := Step(r, s, CallInvoke(f, a, hasResult, outcome));
            && p.bridge == s && p.error != Success && p.handle == 0
            && (!hasResult ==> p.error == NullValue)
            && (hasResult && f in r.functions && (OnInstance(r.functions[f]) || r.functions[f].role.Destructor?) ==>
                  p.error == InvalidArgumentCount)
            && (hasResult && f !in r.functions && CountOf(a) == 0 ==>
                  p.error == if f in r.others then NotInvocable else EntityNotFound)
            && (hasResult && f !in r.functions && CountOf(a) != 0 ==> p.error == InvalidArgumentCount)
            && (hasResult && f in r.functions && !OnInstance(r.functions[f]) && !r.functions[f].role.Destructor? ==>
                  p.error == DecodeArguments(r, s.objects, r.functions[f].parameters, a))
  {
    ArgumentsAnswer(r, s, if f in r.functions then r.functions[f].parameters else [], a);
  }

  /** cmm_flow_invoke succeeds exactly when the function is reached, its invocation
      succeeds, and its result can be given back. */
  lemma InvokeSucceedsIff(r: Reflection, s: Bridge, f: Info, a: Arguments, hasResult: bool, outcome: Outcome)
    requires Coherent(r)
    ensures Step(r, s, CallInvoke(f, a, hasResult, outcome)).error == Success <==>
              && Reaches(r, s, f, a, hasResult) && outcome.invoked == Success
              && (if r.functions[f].role.Constructor? then s.next != 0
                  else GivenBack(r, s, r.functions[f].returnType, outcome.encoded))
  {
    if Reaches(r, s, f, a, hasResult) {
      InvokeReplies(r, s, f, a, outcome);
    } else {
      InvokeRefuses(r, s, f, a, hasResult, outcome);
    }
  }

  // ----- cmm_flow_invoke_method -----

  /** The handle names an object of the class that declares f. */
  predicate NamesInstance(r: Reflection, s: Bridge, f: Info, handle: Handle)
    requires f in r.functions
  {
    handle in s.objects
    && match s.objects[handle]
       case Pointer(_, classId, _) => classId == r.functions[f].parent
       case Aggregate(_) => r.functions[f].parent == INVALID_INFO
  }

  predicate IsMethod(fn: Function) {
    OnInstance(fn) || fn.role.Destructor?
  }

  ghost predicate ReachesMethod(r: Reflection, s: Bridge, f: Info, handle: Handle, a: Arguments, hasResult: bool) {
    && hasResult && f in r.functions && IsMethod(r.functions[f]) && NamesInstance(r, s, f, handle)
    && AllTaken(r, s, r.functions[f].parameters, a)
  }

  /** What a method or destructor call answers when it has been reached: a destructor takes
      its object and the handle away. */
  lemma MethodReplies(r: Reflection, s: Bridge, f: Info, handle: Handle, a: Arguments, outcome: Outcome)
    requires Coherent(r) && ReachesMethod(r, s, f, handle, a, true)
    ensures var p, fn := Step(r, s, CallMethod(f, handle, a, true, outcome)), r.functions[f];
            if fn.role.Destructor? then
              && s.objects[handle].Pointer? && p.error == Success && p.handle == 0
              && p.bridge.objects == s.objects - {handle}
              && p.bridge.live == s.live - {s.objects[handle].instance}
              && p.bridge.destroyed == s.destroyed + multiset{s.objects[handle].instance}
              && p.bridge.next == s.next && p.bridge.stores == s.stores && p.bridge.instances == s.instances
            else if outcome.invoked != Success then p == Reply(s, outcome.invoked, 0)
            else ResultReply(r, s, fn.returnType, outcome.encoded, p)
  {
    assert FunctionOk(r, r.functions[f]);
    ArgumentsAnswer(r, s, r.functions[f].parameters, a);
    EncodeReplies(r, s, r.functions[f].returnType, outcome.encoded);
  }

  lemma MethodRefuses(r: Reflection, s: Bridge, f: Info, handle: Handle, a: Arguments, hasResult: bool,
                      outcome: Outcome)
    requires Coherent(r) && !ReachesMethod(r, s, f, handle, a, hasResult)
    ensures var p := Step(r, s, CallMethod(f, handle, a, hasResult, outcome));
            && p.bridge == s && p.error != Success && p.handle == 0
            && (!hasResult ==> p.error == NullValue)
            && (hasResult && (f in r.functions ==> !IsMethod(r.functions[f])) ==> p.error == NotInvocable)
            && (hasResult && f in r.functions && IsMethod(r.functions[f]) ==>
                  p.error == if handle !in s.objects then NullValue
                             else if !NamesInstance(r, s, f, handle) then InvalidArgumentType
                             else DecodeArguments(r, s.objects, r.functions[f].parameters, a))
  {
    if f in r.functions {
      assert FunctionOk(r, r.functions[f]);
      ArgumentsAnswer(r, s, r.functions[f].parameters, a);
    }
  }

  /** cmm_flow_invoke_method succeeds exactly when the method is reached and, unless it is a
      destructor, its invocation succeeds and its result can be given back. */
  lemma MethodSucceedsIff(r: Reflection, s: Bridge, f: Info, handle: Handle, a: Arguments, hasResult: bool,
                          outcome: Outcome)
    requires Coherent(r)
    ensures Step(r, s, CallMethod(f, handle, a, hasResult, outcome)).error == Success <==>
              && ReachesMethod(r, s, f, handle, a, hasResult)
              && (!r.functions[f].role.Destructor? ==>
                    outcome.invoked == Success && GivenBack(r, s, r.functions[f].returnType, outcome.encoded))
  {
    if ReachesMethod(r, s, f, handle, a, hasResult) {
      MethodReplies(r, s, f, handle, a, outcome);
    } else {
      MethodRefuses(r, s, f, handle, a, hasResult, outcome);
    }
  }

  // ----- Releases -----

  /** cmm_flow_release_object succeeds exactly for a handle that names an object of that
      class, when the class has a destructor; and what it answers otherwise. */
  lemma ReleaseObjectAnswers(r: Reflection, s: Bridge, handle: Handle, typeId: Info)
    requires Coherent(r)
    ensures var p := Step(r, s, CallReleaseObject(handle, typeId));
            var known := typeId in r.destructorOf && r.destructorOf[typeId] != INVALID_INFO;
            && p.handle == 0
            && p.error == (if handle == 0 || typeId == INVALID_INFO then NullValue
                           else if !known then EntityNotFound
                           else if handle !in s.objects then NullValue
                           else if s.objects[handle].Aggregate? || s.objects[handle].classId != typeId
                           then InvalidArgumentType
                           else Success)
            && (p.error != Success ==> p.bridge == s)
            && (p.error == Success ==>
                  && p.bridge.objects == s.objects - {handle}
                  && p.bridge.live == s.live - {s.objects[handle].instance}
                  && p.bridge.destroyed == s.destroyed + multiset{s.objects[handle].instance})
  {
    if handle != 0 && typeId in r.destructorOf && r.destructorOf[typeId] != INVALID_INFO {
      assert FunctionOk(r, r.functions[r.destructorOf[typeId]]);
    }
  }

  /** cmm_flow_release_aggregate succeeds exactly for a handle whose value has that type,
      be it the pointer type of an object, and then forgets the handle and nothing else. */
  lemma ReleaseAggregateAnswers(r: Reflection, s: Bridge, handle: Handle, typeId: Info)
    requires Coherent(r)
    ensures var p := Step(r, s, CallReleaseAggregate(handle, typeId));
            && p.handle == 0
            && p.error == (if handle !in s.objects then NullValue
                           else match s.objects[handle]
                                case Pointer(pointerType, _, _) =>
                                  if pointerType == typeId then Success else InvalidArgumentType
                                case Aggregate(aggregateType) =>
                                  if aggregateType == typeId then Success else InvalidArgumentType)
            && p.bridge == if p.error == Success then s.(objects := s.objects - {handle}) else s
  {
  }
}
