/** What the Flow bridge and object lifetimes read from a registry that a run of
    registrations has built, in the terms of the declarations. */
module QueriesSay {
  import opened Core
  import opened ClassMetadata
  import opened Entities
  import opened RegistrySpec
  import opened RegistryCanon
  import opened RegistryOrder
  import opened RegistryTheorems
  import opened LifecycleQueries
  import opened StoredEntities
  import ConstructorCalls
  import ConstructorLookup
  import DynamicObjects
  import FlowHandles
  import BridgeQueries

  ghost predicate IsFunction(p: Program, r: Refl) {
    r in p.decls && (p.decls[r].FreeFunction? || p.decls[r].FunctionDecl?)
  }

  // ----- Parameters -----

  /** The ids of the declared types of these parameters. */
  ghost predicate DeclaredTypes(p: Program, ps: seq<Refl>, types: seq<Info>) {
    |types| == |ps|
    && forall i | 0 <= i < |ps| :: IsParameter(p, ps[i]) && types[i] == p.id[p.decls[ps[i]].paramType]
  }

  ghost predicate IsParameter(p: Program, q: Refl) {
    q in p.decls && p.decls[q].ParameterDecl? && p.decls[q].paramType in p.id && p.decls[q].decayedType in p.id
  }

  lemma ParameterSaid(p: Program, rs: seq<Refl>, f: Refl, i: nat)
    requires Sound(p) && AllTopLevel(p, Roots(rs)) && IsFunction(p, f) && p.id[f] in Built(p, rs).entities
    requires var e := Built(p, rs).entities[p.id[f]];
             e.FunctionEntity? && IdsAre(p, p.decls[f].signature.parameters, e.parameterIds) && i < |e.parameterIds|
    ensures var q, id, reg := p.decls[f].signature.parameters[i], Built(p, rs).entities[p.id[f]].parameterIds[i],
                              Built(p, rs).entities;
            && IsParameter(p, q) && id in reg && reg[id].ParameterEntity?
            && reg[id].typeId == p.id[p.decls[q].paramType] && reg[id].decayedTypeId == p.id[p.decls[q].decayedType]
  {
    var q := p.decls[f].signature.parameters[i];
    RunsStoreParameters(p, rs);
    assert DeclWellFormed(p, f) && IsParameterOf(p, f, q);
    StoredSays(p, rs, q);
  }

  // ----- The Flow bridge -----

  /** A function as the bridge sees it. */
  ghost predicate SeenAs(p: Program, r: Refl, fn: FlowHandles.Function)
    requires p.id.Keys == p.decls.Keys && IsFunction(p, r)
  {
    var d := p.decls[r];
    && (match d.signature.returnType
        case None => fn.returnType == INVALID_INFO
        case Some(t) => t in p.id && fn.returnType == p.id[t])
    && (d.FreeFunction? ==>
          && fn.role == FlowHandles.Plain && !fn.isStatic && fn.parent == INVALID_INFO
          && DeclaredTypes(p, d.signature.parameters, fn.parameters))
    && (d.FunctionDecl? ==>
          && d.owner in p.id && fn.parent == p.id[d.owner]
          && match d.kind
             case Destructor => fn.role == FlowHandles.Destructor && !fn.isStatic && fn.parameters == []
             case Constructor =>
               && fn.role == FlowHandles.Constructor && !fn.isStatic
               && DeclaredTypes(p, d.signature.parameters, fn.parameters)
             case _ =>
               && fn.role == FlowHandles.Plain && fn.isStatic == d.isStatic
               && DeclaredTypes(p, d.signature.parameters, fn.parameters))
  }

  lemma ParametersSeen(p: Program, rs: seq<Refl>, f: Refl)
    requires Sound(p) && AllTopLevel(p, Roots(rs)) && IsFunction(p, f) && p.id[f] in Built(p, rs).entities
    requires var e := Built(p, rs).entities[p.id[f]];
             e.FunctionEntity? && IdsAre(p, p.decls[f].signature.parameters, e.parameterIds)
    ensures var reg := Built(p, rs).entities;
            DeclaredTypes(p, p.decls[f].signature.parameters,
                          BridgeQueries.ParameterTypes(reg, reg[p.id[f]].parameterIds))
  {
    var ps := p.decls[f].signature.parameters;
    forall i | 0 <= i < |ps|
      ensures IsParameter(p, ps[i])
      ensures var reg := Built(p, rs).entities;
              BridgeQueries.ParameterTypes(reg, reg[p.id[f]].parameterIds)[i] == p.id[p.decls[ps[i]].paramType]
    {
      ParameterSaid(p, rs, f, i);
    }
  }

  /** After any run the bridge sees each stored function with its role, its class, whether
      it is static, and its types. */
  lemma BridgeSees(p: Program, rs: seq<Refl>, r: Refl, pointerTo: Info -> Info, byteSpan: Info, copyable: set<Info>)
    requires Sound(p) && AllTopLevel(p, Roots(rs)) && IsFunction(p, r)
    requires p.id[r] != INVALID_INFO && p.id[r] in Built(p, rs).entities
    ensures var functions := BridgeQueries.ReflectionOf(Built(p, rs).entities, pointerTo, byteSpan, copyable).functions;
            p.id[r] in functions && SeenAs(p, r, functions[p.id[r]])
  {
    StoredSays(p, rs, r);
    if !(p.decls[r].FunctionDecl? && p.decls[r].kind.Destructor?) {
      ParametersSeen(p, rs, r);
    }
  }

  /** It sees no other functions. */
  lemma OnlyFunctionsSeen(p: Program, rs: seq<Refl>, id: Info, pointerTo: Info -> Info, byteSpan: Info,
                          copyable: set<Info>) returns (r: Refl)
    requires Sound(p) && AllTopLevel(p, Roots(rs))
    requires id in BridgeQueries.ReflectionOf(Built(p, rs).entities, pointerTo, byteSpan, copyable).functions
    ensures IsFunction(p, r) && p.id[r] == id
  {
    RunIsCanonical(p, rs);
    var g := Reached(p, Roots(rs));
    assert id in Images(p, Present(p, g));
    r :| r in Present(p, g) && p.id[r] == id;
    Stored(p, g, r);
    EntitySays(p, r, r in g.full);
  }

  /** It sees the destructor of a completed class, and of a class that was only mentioned
      none; classes travel by handle, save byte spans. */
  lemma BridgeSeesClass(p: Program, rs: seq<Refl>, c: Refl, pointerTo: Info -> Info, byteSpan: Info,
                        copyable: set<Info>)
    requires Sound(p) && AllTopLevel(p, Roots(rs)) && c in p.decls && p.decls[c].ClassType?
    requires p.id[c] != INVALID_INFO && p.id[c] in Built(p, rs).entities
    ensures var r := BridgeQueries.ReflectionOf(Built(p, rs).entities, pointerTo, byteSpan, copyable);
            && p.id[c] in r.destructorOf && p.id[c] in r.pointerTo && r.pointerTo[p.id[c]] == pointerTo(p.id[c])
            && (RegisteredWith(p, rs, c) ==> SaysDestructor(p, p.decls[c].members, r.destructorOf[p.id[c]]))
            && (!RegisteredWith(p, rs, c) ==> r.destructorOf[p.id[c]] == INVALID_INFO)
            && (p.id[c] in r.aggregates <==> p.id[c] != byteSpan)
            && r.copyable == copyable
  {
    StoredSays(p, rs, c);
    CompletedIff(p, rs, c);
  }

  // ----- Object lifetimes -----

  /** A constructor as construct sees it. */
  ghost predicate ConstructorSays(p: Program, x: Refl, c: ConstructorCalls.Constructor, passings: Passings)
    requires p.id.Keys == p.decls.Keys
  {
    && IsFunctionOf(p, x, Constructor) && c.id == p.id[x]
    && |c.parameters| == |p.decls[x].signature.parameters|
    && forall i | 0 <= i < |c.parameters| ::
         TakesDeclared(p, p.decls[x].signature.parameters[i], c.parameters[i], passings)
  }

  ghost predicate TakesDeclared(p: Program, q: Refl, parameter: ConstructorCalls.Parameter, passings: Passings) {
    && IsParameter(p, q) && parameter.typeId == p.id[p.decls[q].decayedType]
    && parameter.passing == passings(p.id[p.decls[q].paramType])
  }

  ghost predicate AllConstructors(p: Program, rs: seq<Refl>, xs: seq<Refl>)
    requires Sound(p) && AllTopLevel(p, Roots(rs))
  {
    forall k | 0 <= k < |xs| :: IsFunctionOf(p, xs[k], Constructor) && p.id[xs[k]] in Built(p, rs).entities
  }

  lemma ConstructorSaid(p: Program, rs: seq<Refl>, x: Refl, passings: Passings)
    requires Sound(p) && AllTopLevel(p, Roots(rs)) && ConstructorLookup.ParametersStored(Built(p, rs).entities)
    requires IsFunctionOf(p, x, Constructor) && p.id[x] in Built(p, rs).entities
    ensures ConstructorLookup.IsConstructor(Built(p, rs).entities, p.id[x])
    ensures ConstructorSays(p, x, ConstructorOf(Built(p, rs).entities, p.id[x], passings), passings)
  {
    StoredSays(p, rs, x);
    var c := ConstructorOf(Built(p, rs).entities, p.id[x], passings);
    forall i | 0 <= i < |c.parameters|
      ensures TakesDeclared(p, p.decls[x].signature.parameters[i], c.parameters[i], passings)
    {
      ParameterSaid(p, rs, x, i);
    }
  }

  ghost predicate ConstructorsSay(p: Program, xs: seq<Refl>, cs: seq<ConstructorCalls.Constructor>, passings: Passings)
    requires p.id.Keys == p.decls.Keys
  {
    |cs| == |xs| && forall k | 0 <= k < |xs| :: ConstructorSays(p, xs[k], cs[k], passings)
  }

  lemma {:induction false} ConstructorsSaid(p: Program, rs: seq<Refl>, xs: seq<Refl>, ids: seq<Info>,
                                            passings: Passings)
    requires Sound(p) && AllTopLevel(p, Roots(rs)) && ConstructorLookup.ParametersStored(Built(p, rs).entities)
    requires AllConstructors(p, rs, xs) && IdsAre(p, xs, ids)
    ensures ConstructorsSay(p, xs, ConstructorsOf(Built(p, rs).entities, ids, passings), passings)
  {
    if xs != [] {
      ConstructorSaid(p, rs, xs[0], passings);
      ConstructorsSaid(p, rs, xs[1..], ids[1..], passings);
    }
  }

  lemma {:induction false} KeptAre(ms: seq<Refl>, want: Refl -> bool, x: Refl)
    ensures x in Keep(ms, want) <==> x in ms && want(x)
  {
    if ms != [] {
      KeptAre(ms[..|ms| - 1], want, x);
      assert ms == ms[..|ms| - 1] + [ms[|ms| - 1]];
    }
  }

  lemma ListedConstructors(p: Program, rs: seq<Refl>, c: Refl)
    requires Sound(p) && AllTopLevel(p, Roots(rs)) && RegisteredWith(p, rs, c)
    requires c in p.decls && p.decls[c].ClassType?
    ensures AllConstructors(p, rs, Keep(p.decls[c].members, FunctionsOf(p, Constructor)))
  {
    var ms := p.decls[c].members;
    var xs := Keep(ms, FunctionsOf(p, Constructor));
    CompletedIff(p, rs, c);
    assert DeclWellFormed(p, c);
    forall k | 0 <= k < |xs| ensures IsFunctionOf(p, xs[k], Constructor) && p.id[xs[k]] in Built(p, rs).entities {
      KeptAre(ms, FunctionsOf(p, Constructor), xs[k]);
      var j :| 0 <= j < |ms| && ms[j] == xs[k];
      assert IsMemberOf(p, c, ms[j]);
      PartStoredIff(p, rs, xs[k]);
    }
  }

  /** After any run construct sees, for each completed class, its annotated constructors in
      their order, each with the decayed types of its parameters and the way they are
      passed, and its destructor. */
  lemma LifetimesSee(p: Program, rs: seq<Refl>, c: Refl, passings: Passings, types: ConstructorCalls.Types)
    requires Sound(p) && AllTopLevel(p, Roots(rs)) && RegisteredWith(p, rs, c)
    requires c in p.decls && p.decls[c].ClassType? && p.id[c] != INVALID_INFO
    ensures ConstructorLookup.ParametersStored(Built(p, rs).entities)
    ensures var r, ms := LifetimesOf(Built(p, rs).entities, passings, types), p.decls[c].members;
            && p.id[c] in r.constructorsOf && p.id[c] in r.destructorOf && r.types == types
            && ConstructorsSay(p, Keep(ms, FunctionsOf(p, Constructor)), r.constructorsOf[p.id[c]], passings)
            && SaysDestructor(p, ms, r.destructorOf[p.id[c]])
  {
    RunIsCanonical(p, rs);
    CompletedIff(p, rs, c);
    FullClassStored(p, Reached(p, Roots(rs)), c);
    StoredSays(p, rs, c);
    RunsStoreParameters(p, rs);
    ListedConstructors(p, rs, c);
    ConstructorsSaid(p, rs, Keep(p.decls[c].members, FunctionsOf(p, Constructor)),
                     Built(p, rs).entities[p.id[c]].lists.constructors, passings);
  }

  /** The destructor that the lookup finds is the last one that the class declares. */
  lemma DestructorSaid(p: Program, rs: seq<Refl>, c: Refl)
    requires Sound(p) && AllTopLevel(p, Roots(rs)) && RegisteredWith(p, rs, c)
    requires c in p.decls && p.decls[c].ClassType? && p.id[c] != INVALID_INFO
    ensures SaysDestructor(p, p.decls[c].members, GetDestructorRuntime(Built(p, rs).entities, p.id[c]))
  {
    RunIsCanonical(p, rs);
    CompletedIff(p, rs, c);
    FullClassStored(p, Reached(p, Roots(rs)), c);
    StoredSays(p, rs, c);
  }

  /** A stored destructor is known to belong to the class that declares it. */
  lemma DeclaredInOwner(p: Program, rs: seq<Refl>, x: Refl, passings: Passings, types: ConstructorCalls.Types)
    requires Sound(p) && AllTopLevel(p, Roots(rs)) && IsFunctionOf(p, x, Destructor)
    requires p.id[x] in Built(p, rs).entities && ConstructorLookup.ParametersStored(Built(p, rs).entities)
    ensures var r := LifetimesOf(Built(p, rs).entities, passings, types);
            p.decls[x].owner in p.id && p.id[x] in r.declaredIn && r.declaredIn[p.id[x]] == p.id[p.decls[x].owner]
  {
    StoredSays(p, rs, x);
  }
}
