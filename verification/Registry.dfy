/** include/cmm/detail/registry.hpp: the registry object, whose methods update its
    tables in place.  Each method is proved against the state machine. */
module Registry {
  import opened Core
  import opened ClassMetadata
  import opened Entities
  import opened RegistrySpec

  class Registry {
    var entities: map<Info, Entity>
    var names: map<string, Info>
    var materialization: map<Info, Materialization>
    var registering: set<Info>
    var frozen: bool

    function Tables(): State
      reads this
    {
      State(entities, names, materialization, registering, frozen)
    }

    constructor ()
      ensures Tables() == EMPTY
    {
      entities, names, materialization, registering, frozen := map[], map[], map[], {}, false;
    }

    // ----- Table updates -----

    method AddLookupName(name: string, id: Info)
      modifies this
      ensures Tables() == Naming(old(Tables()), name, id)
    {
      if name == "" {
        return;
      }
      if name !in names {
        names := names[name := id];
      } else if names[name] != id {
        names := names[name := INVALID_INFO];
      }
    }

    method Insert(id: Info, e: Entity) returns (error: Error)
      modifies this
      ensures Outcome(Tables(), error) == InsertUnique(old(Tables()), id, e)
    {
      if id in entities {
        return EntityIdCollision;
      }
      entities := entities[id := e];
      return Success;
    }

    method EnsureTypeDependency(p: Program, t: Refl) returns (id: Info)
      requires WellFormed(p) && IsType(p, t)
      modifies this
      ensures id == p.id[t] && Tables() == EnsureType(p, old(Tables()), t)
      decreases p.rank[t]
    {
      id := p.id[t];
      var d := p.decls[t];
      if id in entities {
        return;
      }
      if d.PlainType? {
        var entity := MakeType(p, t);
        entities := Emplace(entities, id, entity);
        materialization := materialization[id := FullyMaterialized];
      } else {
        entities := Emplace(entities, id, StubOf(d));
        materialization := Emplace(materialization, id, DependencyStub);
      }
      AddLookupName(DependencyName(d), id);
    }

    /** make_type ensures the pointed-to, referred-to or element type on the way. */
    method MakeType(p: Program, t: Refl) returns (entity: Entity)
      requires WellFormed(p) && t in p.decls && p.decls[t].PlainType?
      modifies this
      ensures entity == PlainEntity(p, t)
      ensures var target := p.decls[t].target;
              && (target.None? ==> Tables() == old(Tables()))
              && (target.Some? ==> IsType(p, target.value) && Tables() == EnsureType(p, old(Tables()), target.value))
      decreases p.rank[t], 0
    {
      var d := p.decls[t];
      assert DeclWellFormed(p, t);
      var underlying := INVALID_INFO;
      if d.target.Some? {
        underlying := EnsureTypeDependency(p, d.target.value);
      }
      return TypeEntity(d.display, d.attributes, underlying);
    }

    // ----- Functions and variables -----

    method RegisterParameter(p: Program, ownerId: Info, q: Refl, index: nat) returns (error: Error)
      requires WellFormed(p) && q in p.decls && p.decls[q].ParameterDecl?
      modifies this
      ensures Outcome(Tables(), error) == RegistrySpec.RegisterParameter(p, old(Tables()), ownerId, q, index)
    {
      var d := p.decls[q];
      assert DeclWellFormed(p, q);
      var typeId := EnsureTypeDependency(p, d.paramType);
      var decayedId := EnsureTypeDependency(p, d.decayedType);
      var name := if d.maybeIdentifier.Some? then d.maybeIdentifier.value else "";
      error := Insert(p.id[q], ParameterEntity(name, d.display, typeId, decayedId, ownerId, index));
    }

    method RegisterParameterList(p: Program, f: Refl, ps: seq<Refl>) returns (error: Error)
      requires WellFormed(p) && f in p.decls
      requires forall i | 0 <= i < |ps| :: IsParameterOf(p, f, ps[i])
      modifies this
      ensures Outcome(Tables(), error) == RegisterParameters(p, old(Tables()), f, ps, 0)
    {
      error := Success;
      var index := 0;
      ghost var whole := RegisterParameters(p, Tables(), f, ps, 0);
      while index < |ps|
        invariant index <= |ps|
        invariant whole == if error == Success then RegisterParameters(p, Tables(), f, ps, index)
                           else Outcome(Tables(), error)
      {
        assert IsParameterOf(p, f, ps[index]);
        if error == Success {
          error := RegisterParameter(p, p.id[f], ps[index], index);
        }
        index := index + 1;
      }
    }

    method RegisterFunctionSignature(p: Program, f: Refl) returns (returnId: Info, error: Error)
      requires WellFormed(p) && f in p.decls && (p.decls[f].FreeFunction? || p.decls[f].FunctionDecl?)
      modifies this
      ensures Outcome(Tables(), error) == RegisterSignature(p, old(Tables()), f)
      ensures p.decls[f].signature.returnType.Some? ==>
                p.decls[f].signature.returnType.value in p.id && returnId == p.id[p.decls[f].signature.returnType.value]
      ensures p.decls[f].signature.returnType.None? ==> returnId == INVALID_INFO
    {
      assert DeclWellFormed(p, f);
      var sig := p.decls[f].signature;
      returnId := INVALID_INFO;
      if sig.returnType.Some? {
        returnId := EnsureTypeDependency(p, sig.returnType.value);
      }
      error := RegisterParameterList(p, f, sig.parameters);
    }

    method RegisterFreeFunction(p: Program, f: Refl) returns (error: Error)
      requires WellFormed(p) && f in p.decls && p.decls[f].FreeFunction?
      modifies this
      ensures Outcome(Tables(), error) == RegistrySpec.RegisterFreeFunction(p, old(Tables()), f)
    {
      var d, id := p.decls[f], p.id[f];
      var returnId;
      returnId, error := RegisterFunctionSignature(p, f);
      if error != Success {
        return;
      }
      assert DeclWellFormed(p, f);
      error := Insert(id, FunctionEntity(d.identifier, d.display, FunctionFlags(false, false, false, false, false),
                                         INVALID_INFO, returnId, IdsOf(p, d.signature.parameters)));
      if error != Success {
        return;
      }
      AddLookupName(d.display, id);
      AddLookupName(d.identifier, id);
    }

    method RegisterVariable(p: Program, v: Refl) returns (error: Error)
      requires WellFormed(p) && v in p.decls && p.decls[v].GlobalVariable?
      modifies this
      ensures Outcome(Tables(), error) == RegistrySpec.RegisterVariable(p, old(Tables()), v)
    {
      var d, id := p.decls[v], p.id[v];
      assert DeclWellFormed(p, v);
      var typeId := EnsureTypeDependency(p, d.varType);
      error := Insert(id, VariableEntity(d.identifier, d.display, typeId));
      if error != Success {
        return;
      }
      AddLookupName(d.display, id);
      AddLookupName(d.identifier, id);
    }

    // ----- Enums -----

    method RegisterEnumeratorList(p: Program, e: Refl) returns (error: Error)
      requires WellFormed(p) && e in p.decls && p.decls[e].EnumType?
      modifies this
      ensures Outcome(Tables(), error) == RegisterEnumerators(p, old(Tables()), e, 0)
    {
      assert DeclWellFormed(p, e);
      var xs := p.decls[e].enumerators;
      error := Success;
      var index := 0;
      ghost var whole := RegisterEnumerators(p, Tables(), e, 0);
      while index < |xs|
        invariant index <= |xs|
        invariant whole == if error == Success then RegisterEnumerators(p, Tables(), e, index)
                           else Outcome(Tables(), error)
      {
        assert IsEnumeratorOf(p, e, xs[index]);
        if error == Success {
          error := Insert(p.id[xs[index]], EnumeratorOf(p, xs[index]));
        }
        index := index + 1;
      }
    }

    method RegisterEnum(p: Program, e: Refl) returns (error: Error)
      requires WellFormed(p) && e in p.decls && p.decls[e].EnumType?
      modifies this
      ensures Outcome(Tables(), error) == RegistrySpec.RegisterEnum(p, old(Tables()), e)
    {
      assert DeclWellFormed(p, e);
      var d := p.decls[e];
      var id := EnsureTypeDependency(p, e);
      if !entities[id].EnumEntity? {
        return UncaughtBadVariantAccess;
      }
      var underlyingId := EnsureTypeDependency(p, d.underlying);
      entities := entities[id := WithEnumerators(p, entities[id], e)];
      error := RegisterEnumeratorList(p, e);
      if error != Success {
        return;
      }
      AddLookupName(d.display, id);
    }

    // ----- Classes -----

    method RegisterMember(p: Program, c: Refl, m: Refl) returns (error: Error)
      requires WellFormed(p) && IsMemberOf(p, c, m)
      modifies this
      ensures Outcome(Tables(), error) == RegistrySpec.RegisterMember(p, old(Tables()), c, m)
    {
      var d := p.decls[m];
      assert DeclWellFormed(p, m);
      error := Success;
      if d.DataMemberDecl? {
        var typeId := EnsureTypeDependency(p, d.memberType);
        error := Insert(p.id[m], DataMemberEntity(d.identifier, d.display, d.isStatic, typeId, p.id[d.owner]));
      } else if d.FunctionDecl? {
        if !d.kind.Destructor? {
          var returnId;
          returnId, error := RegisterFunctionSignature(p, m);
        }
        if error == Success {
          error := Insert(p.id[m], FunctionOf(p, m));
        }
      }
    }

    method RegisterBase(p: Program, c: Refl, k: nat) returns (error: Error)
      requires WellFormed(p) && c in p.decls && p.decls[c].ClassType? && k < |p.decls[c].bases|
      requires IsBaseOf(p, c, p.decls[c].bases[k]) && DeclWellFormed(p, p.decls[c].bases[k])
      modifies this
      ensures var o := RegistrySpec.RegisterEntity(p, old(Tables()), p.decls[p.decls[c].bases[k]].baseType);
              Outcome(Tables(), error)
              == if o.error != Success then o
                 else InsertUnique(EnsureType(p, o.state, p.decls[p.decls[c].bases[k]].baseType),
                                   p.id[p.decls[c].bases[k]], BaseOf(p, p.decls[c].bases[k]))
      decreases p.rank[c], 0
    {
      var b := p.decls[c].bases[k];
      var d := p.decls[b];
      error := RegisterEntity(p, d.baseType);
      if error != Success {
        return;
      }
      var baseTypeId := EnsureTypeDependency(p, d.baseType);
      var upcast := if d.access.Public? then d.upcast else None;
      error := Insert(p.id[b], BaseEntity(p.decls[d.baseType].display, d.display, baseTypeId, p.id[d.owner],
                                          d.access, d.isVirtual, upcast));
    }

    method RegisterBases(p: Program, c: Refl, cls: Class) returns (error: Error)
      requires WellFormed(p) && c in p.decls && p.decls[c].ClassType? && cls.Lists() == NO_MEMBERS
      modifies this, cls
      ensures ClassOutcome(Tables(), error, cls.Lists())
              == RegistrySpec.RegisterBases(p, old(Tables()), c, 0, NO_MEMBERS)
      decreases p.rank[c], 1
    {
      assert DeclWellFormed(p, c);
      var bs := p.decls[c].bases;
      error := Success;
      var k := 0;
      while k < |bs|
        invariant k <= |bs|
        invariant RegistrySpec.RegisterBases(p, old(Tables()), c, 0, NO_MEMBERS)
                  == if error == Success then RegistrySpec.RegisterBases(p, Tables(), c, k, cls.Lists())
                     else ClassOutcome(Tables(), error, cls.Lists())
      {
        assert IsBaseOf(p, c, bs[k]) && DeclWellFormed(p, bs[k]);
        if error == Success {
          error := RegisterBase(p, c, k);
          if error == Success {
            cls.AddBase(p.id[bs[k]]);
          }
        }
        k := k + 1;
      }
    }

    method RegisterMembers(p: Program, c: Refl, cls: Class, ghost lists: MemberLists)
      returns (error: Error, ghost ended: MemberLists)
      requires WellFormed(p) && c in p.decls && p.decls[c].ClassType? && cls.Lists() == lists
      modifies this, cls
      ensures ClassOutcome(Tables(), error, ended)
              == RegistrySpec.RegisterMembers(p, old(Tables()), c, 0, lists)
      ensures error == Success ==> cls.Lists() == ended
    {
      assert DeclWellFormed(p, c);
      var ms := p.decls[c].members;
      error := Success;
      ended := lists;
      var k := 0;
      while k < |ms|
        invariant k <= |ms|
        invariant error == Success ==> cls.Lists() == ended
        invariant RegistrySpec.RegisterMembers(p, old(Tables()), c, 0, lists)
                  == if error == Success then RegistrySpec.RegisterMembers(p, Tables(), c, k, ended)
                     else ClassOutcome(Tables(), error, ended)
      {
        assert IsMemberOf(p, c, ms[k]);
        var m := MemberOf(p, ms[k]);
        if error == Success && Included(m) {
          if m.identifier.Some? {
            cls.AddMemberName(m.identifier.value, m.id);
          }
          cls.AddMember(m.id);
          error := RegisterMember(p, c, ms[k]);
          if error == Success {
            cls.AddOfKind(m.kind, m.id);
            ended := AfterMember(ended, m);
          }
        }
        k := k + 1;
      }
    }

    method RegisterClass(p: Program, c: Refl) returns (error: Error)
      requires WellFormed(p) && c in p.decls && p.decls[c].ClassType?
      modifies this
      ensures Outcome(Tables(), error) == RegistrySpec.RegisterClass(p, old(Tables()), c)
      decreases p.rank[c], 2
    {
      var d := p.decls[c];
      var id := EnsureTypeDependency(p, c);
      var cls := new Class();
      error := RegisterBases(p, c, cls);
      if error != Success {
        return;
      }
      ghost var ended;
      error, ended := RegisterMembers(p, c, cls, cls.Lists());
      if error != Success {
        return;
      }
      entities := entities[id := ClassEntity(d.display, d.attributes, cls.Lists())];
      AddLookupName(d.display, id);
    }

    /** The choice of register_entity, by kind of entity. */
    method RegisterByKind(p: Program, r: Refl) returns (error: Error)
      requires WellFormed(p) && IsTopLevel(p, r)
      modifies this
      ensures Outcome(Tables(), error) == Dispatch(p, old(Tables()), r)
      decreases p.rank[r], 3
    {
      var d := p.decls[r];
      if d.FreeFunction? {
        error := RegisterFreeFunction(p, r);
      } else if d.GlobalVariable? {
        error := RegisterVariable(p, r);
      } else if d.ClassType? {
        error := RegisterClass(p, r);
      } else if d.EnumType? {
        error := RegisterEnum(p, r);
      } else {
        var typeId := EnsureTypeDependency(p, r);
        error := Success;
      }
    }

    /** register_entity. */
    method RegisterEntity(p: Program, r: Refl) returns (error: Error)
      requires WellFormed(p) && IsTopLevel(p, r)
      modifies this
      ensures Outcome(Tables(), error) == RegistrySpec.RegisterEntity(p, old(Tables()), r)
      decreases p.rank[r], 4
    {
      var id := p.id[r];
      if frozen {
        return RegistryFrozen;
      }
      if id in materialization && materialization[id] == FullyMaterialized {
        return Success;
      }
      if id in registering {
        return Success;
      }
      registering := registering + {id};
      error := RegisterByKind(p, r);
      if error == UncaughtBadVariantAccess {
        return;
      }
      registering := registering - {id};
      if error == Success {
        materialization := materialization[id := FullyMaterialized];
      }
    }

    // ----- Queries -----

    method GetIdByName(name: string) returns (id: Info)
      modifies this
      ensures id == IdByName(old(Tables()), name) && Tables() == Freeze(old(Tables()))
    {
      frozen := true;
      return if name in names then names[name] else INVALID_INFO;
    }

    method Contains(id: Info) returns (found: bool)
      modifies this
      ensures found == (id in old(entities)) && Tables() == Freeze(old(Tables()))
    {
      frozen := true;
      return id in entities;
    }

    /** entity_registry_.at: None stands for the std::out_of_range it throws. */
    method GetEntity(id: Info) returns (entity: Option<Entity>)
      modifies this
      ensures entity == if id in old(entities) then Some(old(entities)[id]) else None
      ensures Tables() == Freeze(old(Tables()))
    {
      frozen := true;
      return if id in entities then Some(entities[id]) else None;
    }
  }
}
