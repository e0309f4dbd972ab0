/** The one exception that can leave register_entity: std::get<Enum> in register_enum
    on an id that another kind of entity holds, and what stays behind. */
module RegistryExceptions {
  import opened Core
  import opened ClassMetadata
  import opened Entities
  import opened RegistrySpec

  // ----- What the steps leave alone -----

  /** No step but the bookkeeping of register_entity touches these two fields, and
      the entity stored under id stays. */
  ghost predicate Spares(s: State, t: State, id: Info) {
    && t.registering == s.registering && t.frozen == s.frozen
    && (id in s.entities ==> id in t.entities && t.entities[id] == s.entities[id])
  }

  /** The errors a step that does not throw may answer. */
  ghost predicate Regular(s: State, e: Error) {
    e == Success || e == EntityIdCollision || (e == RegistryFrozen && s.frozen)
  }

  ghost predicate Harmless(s: State, o: Outcome, id: Info) {
    Spares(s, o.state, id) && Regular(s, o.error)
  }

  lemma {:induction false} EnsureSpares(p: Program, s: State, t: Refl, id: Info)
    requires WellFormed(p) && IsType(p, t)
    ensures Spares(s, EnsureType(p, s, t), id)
    decreases p.rank[t]
  {
    if p.id[t] !in s.entities && p.decls[t].PlainType? && p.decls[t].target.Some? {
      assert DeclWellFormed(p, t);
      EnsureSpares(p, s, p.decls[t].target.value, id);
    }
  }

  lemma ParameterHarmless(p: Program, s: State, ownerId: Info, q: Refl, index: nat, id: Info)
    requires WellFormed(p) && q in p.decls && p.decls[q].ParameterDecl?
    ensures Harmless(s, RegisterParameter(p, s, ownerId, q, index), id)
  {
    assert DeclWellFormed(p, q);
    EnsureSpares(p, s, p.decls[q].paramType, id);
    EnsureSpares(p, EnsureType(p, s, p.decls[q].paramType), p.decls[q].decayedType, id);
  }

  lemma {:induction false} ParametersHarmless(p: Program, s: State, owner: Refl, ps: seq<Refl>, k: nat, id: Info)
    requires WellFormed(p) && owner in p.decls && k <= |ps|
    requires forall i | 0 <= i < |ps| :: IsParameterOf(p, owner, ps[i])
    ensures Harmless(s, RegisterParameters(p, s, owner, ps, k), id)
    decreases |ps| - k
  {
    if k < |ps| {
      assert IsParameterOf(p, owner, ps[k]);
      ParameterHarmless(p, s, p.id[owner], ps[k], k, id);
      ParametersHarmless(p, RegisterParameter(p, s, p.id[owner], ps[k], k).state, owner, ps, k + 1, id);
    }
  }

  lemma SignatureHarmless(p: Program, s: State, f: Refl, id: Info)
    requires WellFormed(p) && f in p.decls && (p.decls[f].FreeFunction? || p.decls[f].FunctionDecl?)
    ensures Harmless(s, RegisterSignature(p, s, f), id)
  {
    assert DeclWellFormed(p, f);
    var sig := p.decls[f].signature;
    if sig.returnType.Some? {
      EnsureSpares(p, s, sig.returnType.value, id);
    }
    var s1 := if sig.returnType.Some? then EnsureType(p, s, sig.returnType.value) else s;
    ParametersHarmless(p, s1, f, sig.parameters, 0, id);
  }

  lemma FreeFunctionHarmless(p: Program, s: State, f: Refl, id: Info)
    requires WellFormed(p) && f in p.decls && p.decls[f].FreeFunction?
    ensures Harmless(s, RegisterFreeFunction(p, s, f), id)
  {
    SignatureHarmless(p, s, f, id);
  }

  lemma VariableHarmless(p: Program, s: State, v: Refl, id: Info)
    requires WellFormed(p) && v in p.decls && p.decls[v].GlobalVariable?
    ensures Harmless(s, RegisterVariable(p, s, v), id)
  {
    assert DeclWellFormed(p, v);
    EnsureSpares(p, s, p.decls[v].varType, id);
  }

  lemma {:induction false} EnumeratorsHarmless(p: Program, s: State, e: Refl, k: nat, id: Info)
    requires WellFormed(p) && e in p.decls && p.decls[e].EnumType? && k <= |p.decls[e].enumerators|
    ensures Harmless(s, RegisterEnumerators(p, s, e, k), id)
    decreases |p.decls[e].enumerators| - k
  {
    assert DeclWellFormed(p, e);
    var xs := p.decls[e].enumerators;
    if k < |xs| {
      assert IsEnumeratorOf(p, e, xs[k]);
      EnumeratorsHarmless(p, InsertUnique(s, p.id[xs[k]], EnumeratorOf(p, xs[k])).state, e, k + 1, id);
    }
  }

  lemma DataMemberHarmless(p: Program, s: State, c: Refl, m: Refl, id: Info)
    requires WellFormed(p) && IsMemberOf(p, c, m) && p.decls[m].DataMemberDecl?
    ensures Harmless(s, RegisterMember(p, s, c, m), id)
  {
    assert DeclWellFormed(p, m);
    EnsureSpares(p, s, p.decls[m].memberType, id);
  }

  lemma MemberHarmless(p: Program, s: State, c: Refl, m: Refl, id: Info)
    requires WellFormed(p) && IsMemberOf(p, c, m)
    ensures Harmless(s, RegisterMember(p, s, c, m), id)
  {
    if p.decls[m].DataMemberDecl? {
      DataMemberHarmless(p, s, c, m, id);
    } else if p.decls[m].FunctionDecl? && !p.decls[m].kind.Destructor? {
      SignatureHarmless(p, s, m, id);
    }
  }

  lemma {:induction false} MembersHarmless(p: Program, s: State, c: Refl, k: nat, lists: MemberLists, id: Info)
    requires WellFormed(p) && c in p.decls && p.decls[c].ClassType? && k <= |p.decls[c].members|
    ensures var o := RegisterMembers(p, s, c, k, lists); Harmless(s, Outcome(o.state, o.error), id)
    decreases |p.decls[c].members| - k
  {
    assert DeclWellFormed(p, c);
    var ms := p.decls[c].members;
    if k < |ms| {
      assert IsMemberOf(p, c, ms[k]);
      var m := MemberOf(p, ms[k]);
      if Included(m) {
        MemberHarmless(p, s, c, ms[k], id);
        MembersHarmless(p, RegisterMember(p, s, c, ms[k]).state, c, k + 1, AfterMember(lists, m), id);
      } else {
        MembersHarmless(p, s, c, k + 1, lists, id);
      }
    }
  }

  lemma {:induction false} BasesHarmless(p: Program, s: State, c: Refl, k: nat, lists: MemberLists, id: Info)
    requires WellFormed(p) && c in p.decls && p.decls[c].ClassType? && k <= |p.decls[c].bases|
    ensures var o := RegisterBases(p, s, c, k, lists);
            && o.state.registering == s.registering && o.state.frozen == s.frozen
            && Regular(s, o.error)
            && (id in s.registering ==> Spares(s, o.state, id))
    decreases p.rank[c], 1, |p.decls[c].bases| - k
  {
    assert DeclWellFormed(p, c);
    var bs := p.decls[c].bases;
    if k < |bs| {
      assert IsBaseOf(p, c, bs[k]) && DeclWellFormed(p, bs[k]);
      var t := p.decls[bs[k]].baseType;
      ClassEntityHarmless(p, s, t, id);
      var s1 := RegisterEntity(p, s, t).state;
      EnsureSpares(p, s1, t, id);
      var o1 := InsertUnique(EnsureType(p, s1, t), p.id[bs[k]], BaseOf(p, bs[k]));
      BasesHarmless(p, o1.state, c, k + 1, lists.(bases := lists.bases + [p.id[bs[k]]]), id);
    }
  }

  lemma {:induction false} ClassHarmless(p: Program, s: State, c: Refl, id: Info)
    requires WellFormed(p) && c in p.decls && p.decls[c].ClassType?
    ensures var o := RegisterClass(p, s, c);
            && o.state.registering == s.registering && o.state.frozen == s.frozen
            && Regular(s, o.error)
            && (id in s.registering && id != p.id[c] ==> Spares(s, o.state, id))
    decreases p.rank[c], 2
  {
    EnsureSpares(p, s, c, id);
    BasesHarmless(p, EnsureType(p, s, c), c, 0, NO_MEMBERS, id);
    var o := RegisterBases(p, EnsureType(p, s, c), c, 0, NO_MEMBERS);
    MembersHarmless(p, o.state, c, 0, o.lists, id);
  }

  /** Registering a class never throws, and leaves registering_ as it was. */
  lemma {:induction false} ClassEntityHarmless(p: Program, s: State, c: Refl, id: Info)
    requires WellFormed(p) && c in p.decls && p.decls[c].ClassType?
    ensures var o := RegisterEntity(p, s, c);
            && o.state.registering == s.registering && o.state.frozen == s.frozen
            && Regular(s, o.error)
            && (id in s.registering ==> Spares(s, o.state, id))
    decreases p.rank[c], 4
  {
    ClassHarmless(p, s.(registering := s.registering + {p.id[c]}), c, id);
    AddThenErase(s.registering, p.id[c]);
  }

  lemma AddThenErase(ids: set<Info>, id: Info)
    ensures id !in ids ==> ids + {id} - {id} == ids
  {
  }

  // ----- Exactly when it throws -----

  /** register_enum throws exactly when, with the stub in place, the entity stored
      under the enum's id is no enum. */
  ghost predicate Throws(p: Program, s: State, r: Refl)
    requires WellFormed(p) && r in p.decls
  {
    && p.decls[r].EnumType?
    && !s.frozen && !IsFull(s, p.id[r]) && p.id[r] !in s.registering
    && p.id[r] in s.entities && !s.entities[p.id[r]].EnumEntity?
  }

  lemma EnumThrowsIff(p: Program, s: State, e: Refl, id: Info)
    requires WellFormed(p) && e in p.decls && p.decls[e].EnumType?
    ensures RegisterEnum(p, s, e).error == UncaughtBadVariantAccess
            <==> p.id[e] in s.entities && !s.entities[p.id[e]].EnumEntity?
    ensures RegisterEnum(p, s, e).error == UncaughtBadVariantAccess ==> RegisterEnum(p, s, e).state == s
    ensures RegisterEnum(p, s, e).error == UncaughtBadVariantAccess || Regular(s, RegisterEnum(p, s, e).error)
    ensures RegisterEnum(p, s, e).state.registering == s.registering && RegisterEnum(p, s, e).state.frozen == s.frozen
    ensures id != p.id[e] ==> Spares(s, RegisterEnum(p, s, e).state, id)
  {
    assert DeclWellFormed(p, e);
    var s1 := EnsureType(p, s, e);
    EnsureSpares(p, s, e, id);
    if s1.entities[p.id[e]].EnumEntity? {
      var s2 := EnsureType(p, s1, p.decls[e].underlying);
      EnsureSpares(p, s1, p.decls[e].underlying, id);
      var s3 := s2.(entities := s2.entities[p.id[e] := WithEnumerators(p, s2.entities[p.id[e]], e)]);
      EnumeratorsHarmless(p, s3, e, 0, id);
    }
  }

  /** For every registry state and every entity: an exception leaves exactly when an
      enum not yet complete finds another kind of entity under its id. */
  lemma ThrowsIff(p: Program, s: State, r: Refl)
    requires WellFormed(p) && IsTopLevel(p, r)
    ensures RegisterEntity(p, s, r).error == UncaughtBadVariantAccess <==> Throws(p, s, r)
  {
    var started := s.(registering := s.registering + {p.id[r]});
    if p.decls[r].EnumType? {
      EnumThrowsIff(p, started, r, p.id[r]);
    } else if p.decls[r].ClassType? {
      ClassHarmless(p, started, r, p.id[r]);
    } else if p.decls[r].FreeFunction? {
      FreeFunctionHarmless(p, started, r, p.id[r]);
    } else if p.decls[r].GlobalVariable? {
      VariableHarmless(p, started, r, p.id[r]);
    }
  }

  // ----- What register_entity answers -----

  lemma DispatchAnswers(p: Program, s: State, r: Refl)
    requires WellFormed(p) && IsTopLevel(p, r)
    ensures var o := Dispatch(p, s, r); o.error == UncaughtBadVariantAccess || Regular(s, o.error)
  {
    if p.decls[r].EnumType? {
      EnumThrowsIff(p, s, r, p.id[r]);
    } else if p.decls[r].ClassType? {
      ClassHarmless(p, s, r, p.id[r]);
    } else if p.decls[r].FreeFunction? {
      FreeFunctionHarmless(p, s, r, p.id[r]);
    } else if p.decls[r].GlobalVariable? {
      VariableHarmless(p, s, r, p.id[r]);
    }
  }

  /** In every state: RegistryFrozen exactly when the registry is frozen; Success without
      effect for what is complete or under way; otherwise Success, EntityIdCollision or the
      exception, and after Success the id counts as fully registered. */
  lemma Answers(p: Program, s: State, r: Refl)
    requires WellFormed(p) && IsTopLevel(p, r)
    ensures var o := RegisterEntity(p, s, r);
            && (o.error == RegistryFrozen <==> s.frozen)
            && (s.frozen || IsFull(s, p.id[r]) || p.id[r] in s.registering ==> o.state == s)
            && (o.error in {RegistryFrozen, Success, EntityIdCollision, UncaughtBadVariantAccess})
            && (!s.frozen && (IsFull(s, p.id[r]) || p.id[r] in s.registering) ==> o.error == Success)
            && (o.error == Success && p.id[r] !in s.registering ==> IsFull(o.state, p.id[r]))
  {
    DispatchAnswers(p, s.(registering := s.registering + {p.id[r]}), r);
  }

  /** Types that collide: whatever stood first under an id stays, also when it is the target
      of the type that comes to be stored, and nothing complete becomes a stub again. */
  lemma {:induction false} FirstStoredStays(p: Program, s: State, t: Refl, id: Info)
    requires WellFormed(p) && IsType(p, t)
    ensures var after := EnsureType(p, s, t);
            && (IsFull(s, id) ==> IsFull(after, id))
            && (id in s.entities ==> id in after.entities && after.entities[id] == s.entities[id])
            && (p.decls[t].PlainType? && p.decls[t].target.Some? && p.id[t] !in s.entities ==>
                  && IsType(p, p.decls[t].target.value)
                  && var below := EnsureType(p, s, p.decls[t].target.value).entities;
                     id in below ==> id in after.entities && after.entities[id] == below[id])
    decreases p.rank[t]
  {
    if p.decls[t].PlainType? && p.decls[t].target.Some? {
      assert DeclWellFormed(p, t);
      FirstStoredStays(p, s, p.decls[t].target.value, id);
    }
  }

  lemma PartsSpare(p: Program, s: State, c: Refl, id: Info)
    requires WellFormed(p) && c in p.decls && p.decls[c].ClassType? && id in s.registering
    ensures Spares(s, RegisterBases(p, EnsureType(p, s, c), c, 0, NO_MEMBERS).state, id)
    ensures var o := RegisterBases(p, EnsureType(p, s, c), c, 0, NO_MEMBERS);
            Spares(s, RegisterMembers(p, o.state, c, 0, o.lists).state, id)
  {
    EnsureSpares(p, s, c, id);
    BasesHarmless(p, EnsureType(p, s, c), c, 0, NO_MEMBERS, id);
    var o := RegisterBases(p, EnsureType(p, s, c), c, 0, NO_MEMBERS);
    MembersHarmless(p, o.state, c, 0, o.lists, id);
  }

  /** register_class puts the class under its id, whatever stood there, exactly when it
      succeeds. */
  lemma ClassReplaces(p: Program, s: State, c: Refl, id: Info)
    requires WellFormed(p) && c in p.decls && p.decls[c].ClassType? && id == p.id[c] && id in s.registering
    ensures var o := RegisterClass(p, s, c);
            && (o.error == Success ==>
                  && id in o.state.entities && o.state.entities[id].ClassEntity?
                  && o.state.entities[id].name == p.decls[c].display)
            && (o.error != Success ==> Spares(s, o.state, id))
  {
    PartsSpare(p, s, c, id);
  }

  ghost predicate Taken(s: State, o: Outcome, id: Info) {
    && (id in s.entities ==> o.error == EntityIdCollision && Spares(s, o.state, id))
    && (o.error == Success ==> id !in s.entities && id in o.state.entities)
  }

  lemma FunctionTaken(p: Program, s: State, f: Refl, id: Info)
    requires WellFormed(p) && f in p.decls && p.decls[f].FreeFunction? && id == p.id[f] && !s.frozen
    ensures var o := RegisterFreeFunction(p, s, f);
            Taken(s, o, id) && (o.error == Success ==> o.state.entities[id].FunctionEntity?)
  {
    SignatureHarmless(p, s, f, id);
  }

  lemma VariableTaken(p: Program, s: State, v: Refl, id: Info)
    requires WellFormed(p) && v in p.decls && p.decls[v].GlobalVariable? && id == p.id[v]
    ensures var o := RegisterVariable(p, s, v);
            Taken(s, o, id) && (o.error == Success ==> o.state.entities[id].VariableEntity?)
  {
    assert DeclWellFormed(p, v);
    EnsureSpares(p, s, p.decls[v].varType, id);
  }

  /** A function or variable whose id is taken, by whatever entity, is a collision unless it
      is complete or under way, and the entity stays; one that is registered afresh had a
      free id. */
  lemma TakenIdCollides(p: Program, s: State, r: Refl)
    requires WellFormed(p) && IsTopLevel(p, r) && (p.decls[r].FreeFunction? || p.decls[r].GlobalVariable?)
    requires !s.frozen && !IsFull(s, p.id[r]) && p.id[r] !in s.registering
    ensures var o := RegisterEntity(p, s, r);
            && (p.id[r] in s.entities ==> o.error == EntityIdCollision && p.id[r] in o.state.entities
                                          && o.state.entities[p.id[r]] == s.entities[p.id[r]])
            && (o.error == Success ==>
                  && p.id[r] !in s.entities && p.id[r] in o.state.entities
                  && (p.decls[r].FreeFunction? <==> o.state.entities[p.id[r]].FunctionEntity?)
                  && (p.decls[r].GlobalVariable? <==> o.state.entities[p.id[r]].VariableEntity?))
  {
    var started := s.(registering := s.registering + {p.id[r]});
    if p.decls[r].FreeFunction? {
      FunctionTaken(p, started, r, p.id[r]);
    } else {
      VariableTaken(p, started, r, p.id[r]);
    }
  }

  lemma DispatchKeeps(p: Program, s: State, r: Refl, id: Info)
    requires WellFormed(p) && IsTopLevel(p, r)
    ensures var o := Dispatch(p, s, r);
            && o.state.registering == s.registering && o.state.frozen == s.frozen
            && (id in s.registering && id != p.id[r] ==> Spares(s, o.state, id))
  {
    if p.decls[r].EnumType? {
      EnumThrowsIff(p, s, r, id);
    } else if p.decls[r].ClassType? {
      ClassHarmless(p, s, r, id);
    } else if p.decls[r].FreeFunction? {
      FreeFunctionHarmless(p, s, r, id);
    } else if p.decls[r].GlobalVariable? {
      VariableHarmless(p, s, r, id);
    } else {
      EnsureSpares(p, s, r, id);
    }
  }

  /** What one call does to registering_: nothing, unless the exception keeps the id
      in it.  An id under way, and its entity, are never touched. */
  lemma Bookkeeping(p: Program, s: State, r: Refl, id: Info)
    requires WellFormed(p) && IsTopLevel(p, r)
    ensures var o := RegisterEntity(p, s, r);
            && o.state.registering == (if Throws(p, s, r) then s.registering + {p.id[r]} else s.registering)
            && o.state.frozen == s.frozen
            && (id in s.registering && id in s.entities ==>
                  id in o.state.entities && o.state.entities[id] == s.entities[id])
  {
    ThrowsIff(p, s, r);
    AddThenErase(s.registering, p.id[r]);
    DispatchKeeps(p, s.(registering := s.registering + {p.id[r]}), r, id);
  }

  // ----- What it leaves behind -----

  /** One more call on an id that is under way. */
  lemma StuckStep(p: Program, s: State, c: Call, id: Info)
    requires WellFormed(p) && Callable(p, c) && id in s.registering && id in s.entities
    ensures var o := Step(p, s, c);
            && id in o.state.registering && id in o.state.entities && o.state.entities[id] == s.entities[id]
            && (c.Register? && p.id[c.r] == id ==> o.error == Success || o.error == RegistryFrozen)
  {
    if c.Register? {
      Bookkeeping(p, s, c.r, id);
    }
  }

  /** An id left in registering_ stays there in every later run.  Its entity never
      changes again, and each later registration of it is answered by Success, or by
      RegistryFrozen after a query, without any effect. */
  lemma {:induction false} StuckForGood(p: Program, s: State, calls: seq<Call>, id: Info)
    requires WellFormed(p) && (forall i | 0 <= i < |calls| :: Callable(p, calls[i]))
    requires id in s.registering && id in s.entities
    ensures var o := Run(p, s, calls);
            && id in o.state.registering && id in o.state.entities && o.state.entities[id] == s.entities[id]
            && forall i | 0 <= i < |calls| && calls[i].Register? && p.id[calls[i].r] == id ::
                 o.replies[i] == Success || o.replies[i] == RegistryFrozen
  {
    if calls != [] {
      var front, last := calls[..|calls| - 1], calls[|calls| - 1];
      StuckForGood(p, s, front, id);
      StuckStep(p, Run(p, s, front).state, last, id);
    }
  }

  /** After the exception: the enum was not registered, its id is under way for good,
      and every later attempt is answered as if it had been. */
  lemma AfterException(p: Program, s: State, e: Refl, later: seq<Call>)
    requires WellFormed(p) && IsTopLevel(p, e) && Throws(p, s, e)
    requires forall i | 0 <= i < |later| :: Callable(p, later[i])
    ensures var x := RegisterEntity(p, s, e).state;
            && x == s.(registering := s.registering + {p.id[e]})
            && RegisterEntity(p, x, e) == Outcome(x, Success)
            && p.id[e] in Run(p, x, later).state.entities && !Run(p, x, later).state.entities[p.id[e]].EnumEntity?
            && forall i | 0 <= i < |later| && later[i] == Register(e) ::
                 Run(p, x, later).replies[i] == Success || Run(p, x, later).replies[i] == RegistryFrozen
  {
    ThrowsIff(p, s, e);
    EnumThrowsIff(p, s.(registering := s.registering + {p.id[e]}), e, p.id[e]);
    StuckForGood(p, RegisterEntity(p, s, e).state, later, p.id[e]);
  }

  // ----- The input that shows it -----

  /** A variable of class type, first seen by its stub, and an enum with the id of
      that class. */
  ghost predicate Colliding(p: Program, v: Refl, e: Refl) {
    && WellFormed(p) && v in p.decls && p.decls[v].GlobalVariable? && IsTopLevel(p, e) && p.decls[e].EnumType?
    && p.decls[v].varType in p.decls && p.decls[p.decls[v].varType].ClassType?
    && p.id[p.decls[v].varType] == p.id[e] != p.id[v]
  }

  lemma VariableLeavesStub(p: Program, v: Refl, e: Refl)
    requires Colliding(p, v, e)
    ensures RegisterEntity(p, EMPTY, v).error == Success && Throws(p, RegisterEntity(p, EMPTY, v).state, e)
  {
    assert DeclWellFormed(p, v);
    var started := EMPTY.(registering := {p.id[v]});
    assert EMPTY.registering + {p.id[v]} == {p.id[v]};
    var s := EnsureType(p, started, p.decls[v].varType);
    assert s.entities.Keys == {p.id[e]};
  }

  /** Registering the variable succeeds, registering the enum throws, and registering
      the enum again succeeds without registering it. */
  lemma CollisionThrows(p: Program, v: Refl, e: Refl)
    requires Colliding(p, v, e)
    ensures var one := RegisterEntity(p, EMPTY, v);
            var two := RegisterEntity(p, one.state, e);
            var three := RegisterEntity(p, two.state, e);
            && one.error == Success && two.error == UncaughtBadVariantAccess && three.error == Success
            && three.state == two.state && p.id[e] in three.state.registering
            && p.id[e] in three.state.entities && three.state.entities[p.id[e]].ClassEntity?
  {
    VariableLeavesStub(p, v, e);
    var one := RegisterEntity(p, EMPTY, v).state;
    ThrowsIff(p, one, e);
    AfterException(p, one, e, []);
    StubIsClass(p, v, e);
  }

  lemma StubIsClass(p: Program, v: Refl, e: Refl)
    requires Colliding(p, v, e)
    ensures p.id[e] in RegisterEntity(p, EMPTY, v).state.entities
    ensures RegisterEntity(p, EMPTY, v).state.entities[p.id[e]].ClassEntity?
  {
    assert DeclWellFormed(p, v);
    VariableLeavesStub(p, v, e);
  }

  /** class C {}; enum E : int {}; C x; with C and E hashed alike. */
  function CollidingExample(shared: Info, intId: Info, varId: Info): Program {
    var attributes := TypeAttributes(1, 1, 0, 0);
    Program(map[1 := ClassType("C", "C", attributes, [], []), 2 := EnumType("E", "E", attributes, 3, []),
                3 := PlainType("int", "int", attributes, true, None), 4 := GlobalVariable("x", "x", 1)],
            map[1 := shared, 2 := shared, 3 := intId, 4 := varId], map[1 := 0, 2 := 0, 3 := 0, 4 := 0], map[])
  }

  lemma ExampleCollides(shared: Info, intId: Info, varId: Info)
    requires shared != varId
    ensures Colliding(CollidingExample(shared, intId, varId), 4, 2)
  {
    var p := CollidingExample(shared, intId, varId);
    assert DeclWellFormed(p, 1) && DeclWellFormed(p, 2) && DeclWellFormed(p, 3) && DeclWellFormed(p, 4);
  }
}
