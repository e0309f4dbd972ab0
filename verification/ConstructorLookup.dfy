/** lookup::get_constructor in its two forms: the run-time registry scans every
    member, the compiled one scans the constructor list. */
module ConstructorLookup {
  import opened Core
  import opened ClassMetadata
  import opened Entities

  type Store = map<Info, Entity>

  predicate IsConstructor(reg: Store, id: Info) {
    id in reg && reg[id].FunctionEntity? && reg[id].flags.isConstructor
  }

  /** What visit_entity answers for a stored parameter id: the invalid id when it
      names an entity of another kind. */
  function DecayedTypeOf(reg: Store, id: Info): Info
    requires id in reg
  {
    if reg[id].ParameterEntity? then reg[id].decayedTypeId else INVALID_INFO
  }

  predicate ParameterIs(reg: Store, id: Info, decayed: Info) {
    id in reg && reg[id].ParameterEntity? && reg[id].decayedTypeId == decayed
  }

  /** The test of include/cmm/meta.hpp: a valid id of a constructor whose parameters
      answer the expected decayed types. */
  predicate AcceptsRuntime(reg: Store, id: Info, expected: seq<Info>) {
    && id != INVALID_INFO && IsConstructor(reg, id)
    && |reg[id].parameterIds| == |expected|
    && forall i | 0 <= i < |expected| :: reg[id].parameterIds[i] in reg
                                         && DecayedTypeOf(reg, reg[id].parameterIds[i]) == expected[i]
  }

  /** The test of include/cmm/static_lifecycle.hpp: a constructor all of whose
      parameters are parameters of the expected decayed types. */
  predicate AcceptsStatic(reg: Store, id: Info, expected: seq<Info>) {
    && IsConstructor(reg, id)
    && |reg[id].parameterIds| == |expected|
    && forall i | 0 <= i < |expected| :: ParameterIs(reg, reg[id].parameterIds[i], expected[i])
  }

  function RuntimeTest(reg: Store, expected: seq<Info>): Info -> bool {
    (id: Info) => AcceptsRuntime(reg, id, expected)
  }

  function StaticTest(reg: Store, expected: seq<Info>): Info -> bool {
    (id: Info) => AcceptsStatic(reg, id, expected)
  }

  /** The first listed id that passes, or the invalid id. */
  function FirstPassing(ids: seq<Info>, test: Info -> bool): (id: Info)
    ensures id != INVALID_INFO ==> id in ids && test(id)
    ensures id == INVALID_INFO ==> (forall x | x in ids :: !test(x)) || (INVALID_INFO in ids && test(INVALID_INFO))
  {
    if ids == [] then INVALID_INFO
    else if test(ids[0]) then ids[0]
    else FirstPassing(ids[1..], test)
  }

  /** The parameters of every function are stored; visit_entity throws on others. */
  predicate ParametersStored(reg: Store) {
    forall id | id in reg && reg[id].FunctionEntity? ::
      forall i | 0 <= i < |reg[id].parameterIds| :: reg[id].parameterIds[i] in reg
  }

  /** The inner loop of the run-time form. */
  method SameParametersRuntime(reg: Store, ps: seq<Info>, expected: seq<Info>) returns (same: bool)
    requires |ps| == |expected| && forall i | 0 <= i < |ps| :: ps[i] in reg
    ensures same <==> forall i | 0 <= i < |ps| :: DecayedTypeOf(reg, ps[i]) == expected[i]
  {
    for i := 0 to |expected|
      invariant forall j | 0 <= j < i :: DecayedTypeOf(reg, ps[j]) == expected[j]
    {
      if DecayedTypeOf(reg, ps[i]) != expected[i] {
        return false;
      }
    }
    return true;
  }

  /** The inner loop of the compiled form. */
  method SameParametersStatic(reg: Store, ps: seq<Info>, expected: seq<Info>) returns (same: bool)
    requires |ps| == |expected|
    ensures same <==> forall i | 0 <= i < |ps| :: ParameterIs(reg, ps[i], expected[i])
  {
    for i := 0 to |expected|
      invariant forall j | 0 <= j < i :: ParameterIs(reg, ps[j], expected[j])
    {
      if !ParameterIs(reg, ps[i], expected[i]) {
        return false;
      }
    }
    return true;
  }

  /** The run-time form: every valid member that is a constructor is tried. */
  method GetConstructorRuntime(reg: Store, classId: Info, expected: seq<Info>) returns (found: Info)
    requires ParametersStored(reg)
    ensures found == if classId != INVALID_INFO && classId in reg && reg[classId].ClassEntity?
                     then FirstPassing(reg[classId].lists.members, RuntimeTest(reg, expected)) else INVALID_INFO
  {
    if classId == INVALID_INFO || classId !in reg || !reg[classId].ClassEntity? {
      return INVALID_INFO;
    }
    var members := reg[classId].lists.members;
    ghost var test := RuntimeTest(reg, expected);
    var k := 0;
    while k < |members|
      invariant 0 <= k <= |members|
      invariant FirstPassing(members, test) == FirstPassing(members[k..], test)
    {
      var m := members[k];
      assert members[k..][1..] == members[k + 1..];
      k := k + 1;
      if m == INVALID_INFO || !IsConstructor(reg, m) {
        continue;
      }
      var ps := reg[m].parameterIds;
      if |ps| != |expected| {
        continue;
      }
      var match_ := SameParametersRuntime(reg, ps, expected);
      if match_ {
        return m;
      }
    }
    return INVALID_INFO;
  }

  /** The compiled form: a candidate or parameter of the wrong kind is skipped. */
  method GetConstructorStatic(reg: Store, classId: Info, expected: seq<Info>) returns (found: Info)
    ensures found == if classId != INVALID_INFO && classId in reg && reg[classId].ClassEntity?
                     then FirstPassing(reg[classId].lists.constructors, StaticTest(reg, expected)) else INVALID_INFO
  {
    if classId == INVALID_INFO || classId !in reg || !reg[classId].ClassEntity? {
      return INVALID_INFO;
    }
    var candidates := reg[classId].lists.constructors;
    ghost var test := StaticTest(reg, expected);
    var k := 0;
    while k < |candidates|
      invariant 0 <= k <= |candidates|
      invariant FirstPassing(candidates, test) == FirstPassing(candidates[k..], test)
    {
      var c := candidates[k];
      assert candidates[k..][1..] == candidates[k + 1..];
      k := k + 1;
      if !IsConstructor(reg, c) {
        continue;
      }
      var ps := reg[c].parameterIds;
      if |ps| != |expected| {
        continue;
      }
      var match_ := SameParametersStatic(reg, ps, expected);
      if match_ {
        return c;
      }
    }
    return INVALID_INFO;
  }

  lemma {:induction false} FirstPassingAppend(ids: seq<Info>, x: Info, test: Info -> bool)
    requires !test(INVALID_INFO)
    ensures FirstPassing(ids + [x], test)
            == if FirstPassing(ids, test) != INVALID_INFO then FirstPassing(ids, test)
               else if test(x) then x else INVALID_INFO
  {
    if ids == [] {
      assert (ids + [x])[1..] == [];
    } else {
      FirstPassingAppend(ids[1..], x, test);
      assert (ids + [x])[1..] == ids[1..] + [x];
    }
  }

  /** Scanning all members and scanning the constructor list find the same id, because
      only constructors on the list can pass. */
  lemma {:induction false} SameConstructorFound(ms: seq<Member>, test: Info -> bool)
    requires !test(INVALID_INFO)
    requires forall k | 0 <= k < |ms| && Included(ms[k]) && test(ms[k].id) :: OfKind(ms[k], Constructor)
    ensures FirstPassing(Pick(ms, Included, IdOf), test) == FirstPassing(IdsOfKind(ms, Constructor), test)
  {
    if ms != [] {
      var front, m := ms[..|ms| - 1], ms[|ms| - 1];
      SameConstructorFound(front, test);
      var isConstructor := (x: Member) => OfKind(x, Constructor);
      assert IdsOfKind(ms, Constructor) == Pick(ms, isConstructor, IdOf);
      FirstPassingAppend(Pick(front, Included, IdOf), m.id, test);
      FirstPassingAppend(IdsOfKind(front, Constructor), m.id, test);
      assert Pick(ms, Included, IdOf) == Pick(front, Included, IdOf) + if Included(m) then [m.id] else [];
      assert IdsOfKind(ms, Constructor)
          == IdsOfKind(front, Constructor) + if OfKind(m, Constructor) then [m.id] else [];
    }
  }

  /** Tests that agree on a list find the same id in it. */
  lemma {:induction false} SameTests(ids: seq<Info>, one: Info -> bool, other: Info -> bool)
    requires forall id | id in ids :: one(id) == other(id)
    ensures FirstPassing(ids, one) == FirstPassing(ids, other)
  {
    if ids != [] {
      assert forall id | id in ids[1..] :: id in ids;
      SameTests(ids[1..], one, other);
    }
  }
}
