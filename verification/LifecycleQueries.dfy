/** lookup::get_constructor and lookup::get_destructor on a registry that a run of
    registrations has built, and what object lifetimes rely on there. */
module LifecycleQueries {
  import opened Core
  import opened ClassMetadata
  import opened Entities
  import opened RegistrySpec
  import opened RegistryCanon
  import opened RegistryOrder
  import opened RegistryTheorems
  import ConstructorCalls
  import ConstructorLookup
  import DynamicObjects
  import RegistryQueries

  type Store = map<Info, Entity>

  function Built(p: Program, rs: seq<Refl>): (s: State)
    requires Sound(p) && AllTopLevel(p, Roots(rs))
  {
    RunIsCanonical(p, rs);
    Run(p, EMPTY, Registrations(rs)).state
  }

  /** lookup::get_destructor of include/cmm/meta.hpp. */
  function GetDestructorRuntime(reg: Store, classId: Info): Info {
    if classId == INVALID_INFO || classId !in reg || !reg[classId].ClassEntity? then INVALID_INFO
    else reg[classId].lists.destructor
  }

  /** lookup::get_destructor of include/cmm/static_lifecycle.hpp, which also looks at
      the function it found. */
  function GetDestructorStatic(reg: Store, classId: Info): Info {
    if classId == INVALID_INFO || classId !in reg || !reg[classId].ClassEntity? then INVALID_INFO
    else
      var destructor := reg[classId].lists.destructor;
      if destructor == INVALID_INFO then INVALID_INFO
      else if destructor in reg && reg[destructor].FunctionEntity? && reg[destructor].flags.isDestructor then destructor
      else INVALID_INFO
  }

  /** A class's destructor id is that of a stored destructor of this very class. */
  lemma DestructorIsOwn(p: Program, rs: seq<Refl>, classId: Info)
    requires Sound(p) && AllTopLevel(p, Roots(rs))
    ensures var reg := Built(p, rs).entities; var d := GetDestructorRuntime(reg, classId);
            d != INVALID_INFO ==>
              d in reg && reg[d].FunctionEntity? && reg[d].flags.isDestructor && reg[d].parentId == classId
  {
    var s := Built(p, rs);
    if GetDestructorRuntime(s.entities, classId) != INVALID_INFO {
      RunsAreClosed(p, rs, classId);
      assert ClassListsResolve(s, classId, s.entities[classId].lists);
      assert KindResolves(s, classId, Destructor, s.entities[classId].lists.destructor);
    }
  }

  /** The check the second form adds never fails: both forms answer alike. */
  lemma SameDestructor(p: Program, rs: seq<Refl>, classId: Info)
    requires Sound(p) && AllTopLevel(p, Roots(rs))
    ensures GetDestructorStatic(Built(p, rs).entities, classId) == GetDestructorRuntime(Built(p, rs).entities, classId)
  {
    DestructorIsOwn(p, rs, classId);
  }

  ghost predicate ParametersAreParameters(reg: Store) {
    forall f, i | f in reg && reg[f].FunctionEntity? && 0 <= i < |reg[f].parameterIds| ::
      reg[f].parameterIds[i] in reg && reg[reg[f].parameterIds[i]].ParameterEntity?
  }

  /** In every registry built at run time the parameter ids of functions are those of
      stored parameters, as the run-time lookup needs. */
  lemma RunsStoreParameters(p: Program, rs: seq<Refl>)
    requires Sound(p) && AllTopLevel(p, Roots(rs))
    ensures ConstructorLookup.ParametersStored(Built(p, rs).entities)
    ensures ParametersAreParameters(Built(p, rs).entities)
  {
    var s := Built(p, rs);
    forall f | f in s.entities && s.entities[f].FunctionEntity?
      ensures ParametersResolve(s, f, s.entities[f].parameterIds)
    {
      RunsAreClosed(p, rs, f);
    }
  }

  /** A test the compiled form passes is one the run-time form passes, and back, on
      every id but the invalid one. */
  lemma TestsAgree(p: Program, rs: seq<Refl>, id: Info, expected: seq<Info>)
    requires Sound(p) && AllTopLevel(p, Roots(rs)) && id != INVALID_INFO
    ensures var reg := Built(p, rs).entities;
            ConstructorLookup.AcceptsRuntime(reg, id, expected) <==> ConstructorLookup.AcceptsStatic(reg, id, expected)
  {
    RunsStoreParameters(p, rs);
  }

  /** For every registered class, base classes registered on the way included, both
      forms of get_constructor answer alike, unless one of its constructors has the
      id that stands for no answer. */
  lemma RunsFindSameConstructor(p: Program, rs: seq<Refl>, c: Refl, expected: seq<Info>)
    requires Sound(p) && AllTopLevel(p, Roots(rs)) && c in Reached(p, Roots(rs)).full && c in p.decls
    requires p.decls[c].ClassType?
    ensures p.id[c] in Built(p, rs).entities && Built(p, rs).entities[p.id[c]].ClassEntity?
    ensures var reg := Built(p, rs).entities; var lists := reg[p.id[c]].lists;
            INVALID_INFO !in lists.constructors ==>
              ConstructorLookup.FirstPassing(lists.members, ConstructorLookup.RuntimeTest(reg, expected))
              == ConstructorLookup.FirstPassing(lists.constructors, ConstructorLookup.StaticTest(reg, expected))
  {
    RunIsCanonical(p, rs);
    RegistryQueries.SameConstructor(p, Reached(p, Roots(rs)), c, expected);
    var reg := Built(p, rs).entities;
    var lists := reg[p.id[c]].lists;
    if INVALID_INFO !in lists.constructors {
      forall id | id in lists.constructors
        ensures ConstructorLookup.RuntimeTest(reg, expected)(id) == ConstructorLookup.StaticTest(reg, expected)(id)
      {
        TestsAgree(p, rs, id, expected);
      }
      ConstructorLookup.SameTests(lists.constructors, ConstructorLookup.RuntimeTest(reg, expected),
                                  ConstructorLookup.StaticTest(reg, expected));
    }
  }

  // ----- Object lifetimes -----

  /** How a parameter is passed, by the id of its declared type. */
  type Passings = Info -> ConstructorCalls.Passing

  /** The constructor behind a stored id. */
  function ConstructorOf(reg: Store, id: Info, passings: Passings): ConstructorCalls.Constructor
    requires id in reg && reg[id].FunctionEntity? && ConstructorLookup.ParametersStored(reg)
  {
    var ps := reg[id].parameterIds;
    ConstructorCalls.Constructor(
      id,
      seq(|ps|, i requires 0 <= i < |ps| =>
        var q := reg[ps[i]];
        ConstructorCalls.Parameter(ConstructorLookup.DecayedTypeOf(reg, ps[i]),
                                   passings(if q.ParameterEntity? then q.typeId else INVALID_INFO))))
  }

  function ConstructorsOf(reg: Store, ids: seq<Info>, passings: Passings): seq<ConstructorCalls.Constructor>
    requires ConstructorLookup.ParametersStored(reg)
  {
    if ids == [] then []
    else
      (if ConstructorLookup.IsConstructor(reg, ids[0]) then [ConstructorOf(reg, ids[0], passings)] else [])
      + ConstructorsOf(reg, ids[1..], passings)
  }

  function TypesOf(types: ConstructorCalls.Types, args: seq<ConstructorCalls.Argument>): (ids: seq<Info>)
    ensures |ids| == |args| && forall i | 0 <= i < |args| :: ids[i] == ConstructorCalls.TypeIdOf(types, args[i])
  {
    seq(|args|, i requires 0 <= i < |args| => ConstructorCalls.TypeIdOf(types, args[i]))
  }

  lemma MatchIsTest(reg: Store, id: Info, passings: Passings, types: ConstructorCalls.Types,
                    args: seq<ConstructorCalls.Argument>)
    requires ConstructorLookup.ParametersStored(reg) && ParametersAreParameters(reg)
    requires ConstructorLookup.IsConstructor(reg, id)
    ensures ConstructorCalls.TypesMatch(types, ConstructorOf(reg, id, passings), args)
            <==> ConstructorLookup.AcceptsStatic(reg, id, TypesOf(types, args))
  {
    var ps := reg[id].parameterIds;
    assert forall i | 0 <= i < |ps| ::
        ConstructorOf(reg, id, passings).parameters[i].typeId == reg[ps[i]].decayedTypeId;
  }

  lemma FirstMatchCons(types: ConstructorCalls.Types, c: ConstructorCalls.Constructor,
                       cs: seq<ConstructorCalls.Constructor>, args: seq<ConstructorCalls.Argument>)
    ensures ConstructorCalls.FirstMatch(types, [c] + cs, args)
         == if ConstructorCalls.TypesMatch(types, c, args) then Some(c)
            else ConstructorCalls.FirstMatch(types, cs, args)
  {
    assert ([c] + cs)[1..] == cs;
  }

  /** Lookup by argument types is get_constructor on the stored list: construct finds
      the constructor that either form of the lookup answers. */
  lemma {:induction false} FirstMatchIsLookup(reg: Store, ids: seq<Info>, passings: Passings,
                                              types: ConstructorCalls.Types,
                                              args: seq<ConstructorCalls.Argument>)
    requires ConstructorLookup.ParametersStored(reg) && ParametersAreParameters(reg) && INVALID_INFO !in ids
    ensures var found := ConstructorCalls.FirstMatch(types, ConstructorsOf(reg, ids, passings), args);
            ConstructorLookup.FirstPassing(ids, ConstructorLookup.StaticTest(reg, TypesOf(types, args)))
            == if found.Some? then found.value.id else INVALID_INFO
  {
    if ids != [] {
      assert INVALID_INFO !in ids[1..];
      FirstMatchIsLookup(reg, ids[1..], passings, types, args);
      if ConstructorLookup.IsConstructor(reg, ids[0]) {
        MatchIsTest(reg, ids[0], passings, types, args);
        FirstMatchCons(types, ConstructorOf(reg, ids[0], passings), ConstructorsOf(reg, ids[1..], passings), args);
      } else {
        assert ConstructorsOf(reg, ids, passings) == ConstructorsOf(reg, ids[1..], passings);
      }
    }
  }

  /** What object lifetimes see of a store. */
  function LifetimesOf(reg: Store, passings: Passings, types: ConstructorCalls.Types): DynamicObjects.Registry
    requires ConstructorLookup.ParametersStored(reg)
  {
    DynamicObjects.Registry(
      map c | c in reg && c != INVALID_INFO && reg[c].ClassEntity? ::
        ConstructorsOf(reg, reg[c].lists.constructors, passings),
      map c | c in reg && c != INVALID_INFO && reg[c].ClassEntity? :: reg[c].lists.destructor,
      map d | d in reg && reg[d].FunctionEntity? && reg[d].flags.isDestructor :: reg[d].parentId,
      types)
  }

  /** In every registry built at run time the destructor of a class accepts pointers
      to that class, so the lifetime theorems apply to it. */
  lemma RunsAreConsistent(p: Program, rs: seq<Refl>, passings: Passings, types: ConstructorCalls.Types)
    requires Sound(p) && AllTopLevel(p, Roots(rs))
    ensures ConstructorLookup.ParametersStored(Built(p, rs).entities)
    ensures DynamicObjects.Consistent(LifetimesOf(Built(p, rs).entities, passings, types))
  {
    RunsStoreParameters(p, rs);
    var r := LifetimesOf(Built(p, rs).entities, passings, types);
    forall c | c in r.destructorOf && r.destructorOf[c] != INVALID_INFO
      ensures r.destructorOf[c] in r.declaredIn && r.declaredIn[r.destructorOf[c]] == c
    {
      DestructorIsOwn(p, rs, c);
    }
  }
}
