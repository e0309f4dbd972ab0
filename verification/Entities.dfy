/** The records a registry stores, and the program description that registration
    reads.  A reflection (std::meta::info) is an opaque handle; what the compiler
    answers about it is its declaration. */
module Entities {
  import opened Core
  import opened ClassMetadata

  type Address = nat

  const NULL: Address := 0

  datatype Access = Public | Protected | Private

  datatype TypeAttributes = TypeAttributes(size: nat, alignment: nat, flags: nat, arrayExtent: nat)

  datatype FunctionFlags = FunctionFlags(
    isMember: bool, isStatic: bool, isConst: bool, isConstructor: bool, isDestructor: bool)

  datatype EnumEntry = EnumEntry(name: string, valueBits: nat, isSigned: bool, entityId: Info)

  /** A public base carries a pointer adjustment; other bases carry none. */
  type Upcast = Option<Address -> Address>

  datatype Entity =
    | TypeEntity(name: string, attributes: TypeAttributes, underlyingId: Info)
    | ClassEntity(name: string, attributes: TypeAttributes, lists: MemberLists)
    | EnumEntity(name: string, attributes: TypeAttributes, underlyingId: Info, entries: seq<EnumEntry>)
    | VariableEntity(name: string, display: string, typeId: Info)
    | DataMemberEntity(name: string, display: string, isStatic: bool, typeId: Info, parentId: Info)
    | FunctionEntity(name: string, display: string, flags: FunctionFlags, parentId: Info,
                     returnTypeId: Info, parameterIds: seq<Info>)
    | ParameterEntity(name: string, display: string, typeId: Info, decayedTypeId: Info,
                      parentId: Info, index: nat)
    | EnumeratorEntity(name: string, display: string, valueBits: nat, isSigned: bool, parentId: Info)
    | BaseEntity(name: string, display: string, typeId: Info, parentId: Info, access: Access,
                 isVirtual: bool, upcast: Upcast)

  type Refl = nat

  datatype Signature = Signature(returnType: Option<Refl>, parameters: seq<Refl>)

  /** One declaration of the reflected program.  Children name their owner, as
      parent_of does. */
  datatype Decl =
    // fundamental, pointer, reference, array and function types
    | PlainType(display: string, canonical: string, attributes: TypeAttributes,
                isFundamental: bool, target: Option<Refl>)
    | ClassType(display: string, canonical: string, attributes: TypeAttributes,
                bases: seq<Refl>, members: seq<Refl>)
    | EnumType(display: string, canonical: string, attributes: TypeAttributes,
               underlying: Refl, enumerators: seq<Refl>)
    | FreeFunction(identifier: string, display: string, signature: Signature)
    | GlobalVariable(identifier: string, display: string, varType: Refl)
    | BaseDecl(owner: Refl, display: string, baseType: Refl, access: Access, isVirtual: bool, upcast: Upcast)
    | DataMemberDecl(owner: Refl, display: string, identifier: string, reflectable: bool, isStatic: bool,
                     memberType: Refl)
    | FunctionDecl(owner: Refl, display: string, maybeIdentifier: Option<string>, reflectable: bool,
                   kind: MemberKind, isStatic: bool, isConst: bool, signature: Signature)
    | ParameterDecl(owner: Refl, display: string, maybeIdentifier: Option<string>, paramType: Refl, decayedType: Refl)
    | EnumeratorDecl(owner: Refl, display: string, identifier: string, valueBits: nat, isSigned: bool)

  /** decls: what the compiler says.  id: hash_entity of every reflection.  rank:
      falls from a type to the type it points to and from a class to its bases; it
      exists because C++ types are well founded.  annotated: the member types that
      carry the reflectable annotation, with their identifiers. */
  datatype Program = Program(decls: map<Refl, Decl>, id: map<Refl, Info>, rank: map<Refl, nat>,
                             annotated: map<Refl, Option<string>>)

  predicate IsType(p: Program, r: Refl) {
    r in p.decls && (p.decls[r].PlainType? || p.decls[r].ClassType? || p.decls[r].EnumType?)
  }

  /** The reflections register_entity accepts: functions, variables and types. */
  predicate IsTopLevel(p: Program, r: Refl) {
    IsType(p, r) || (r in p.decls && (p.decls[r].FreeFunction? || p.decls[r].GlobalVariable?))
  }

  predicate IsParameterOf(p: Program, f: Refl, q: Refl) {
    q in p.decls && p.decls[q].ParameterDecl? && p.decls[q].owner == f
  }

  predicate IsBaseOf(p: Program, c: Refl, b: Refl) {
    && b in p.decls && p.decls[b].BaseDecl? && p.decls[b].owner == c
    && p.decls[b].baseType in p.rank && c in p.rank && p.rank[p.decls[b].baseType] < p.rank[c]
  }

  predicate IsEnumeratorOf(p: Program, e: Refl, x: Refl) {
    x in p.decls && p.decls[x].EnumeratorDecl? && p.decls[x].owner == e
  }

  predicate SignatureWellFormed(p: Program, owner: Refl, sig: Signature) {
    && (sig.returnType.Some? ==> IsType(p, sig.returnType.value))
    && Distinct(sig.parameters)
    && forall i | 0 <= i < |sig.parameters| :: IsParameterOf(p, owner, sig.parameters[i])
  }

  predicate IsMemberOf(p: Program, c: Refl, m: Refl) {
    && m in p.decls
    && (IsType(p, m)
        || ((p.decls[m].DataMemberDecl? || p.decls[m].FunctionDecl?) && p.decls[m].owner == c))
  }

  predicate DeclWellFormed(p: Program, r: Refl)
    requires r in p.decls && p.rank.Keys == p.decls.Keys
  {
    var d := p.decls[r];
    match d
    case PlainType(_, _, _, _, target) =>
      target.Some? ==> IsType(p, target.value) && p.rank[target.value] < p.rank[r]
    case ClassType(_, _, _, bases, members) =>
      && Distinct(bases) && Distinct(members)
      && (forall i | 0 <= i < |bases| :: IsBaseOf(p, r, bases[i]))
      && (forall i | 0 <= i < |members| :: IsMemberOf(p, r, members[i]))
    case EnumType(_, _, _, underlying, enumerators) =>
      && IsType(p, underlying) && p.decls[underlying].PlainType?
      && Distinct(enumerators)
      && forall i | 0 <= i < |enumerators| :: IsEnumeratorOf(p, r, enumerators[i])
    case FreeFunction(_, _, sig) => SignatureWellFormed(p, r, sig)
    case GlobalVariable(_, _, varType) => IsType(p, varType)
    case BaseDecl(owner, _, baseType, _, _, _) =>
      owner in p.decls && baseType in p.decls && p.decls[baseType].ClassType?
    case DataMemberDecl(owner, _, _, _, _, memberType) => owner in p.decls && IsType(p, memberType)
    case FunctionDecl(owner, _, _, _, kind, _, _, sig) =>
      && owner in p.decls
      && SignatureWellFormed(p, r, sig)
      && (kind.Constructor? || kind.Destructor? || kind.MemberFunction?)
      && (kind.MemberFunction? <==> sig.returnType.Some?)
    case ParameterDecl(owner, _, _, paramType, decayedType) =>
      owner in p.decls && IsType(p, paramType) && IsType(p, decayedType)
    case EnumeratorDecl(owner, _, _, _, _) => owner in p.decls
  }

  /** What the C++ type system guarantees about any program. */
  predicate WellFormed(p: Program) {
    && p.id.Keys == p.decls.Keys && p.rank.Keys == p.decls.Keys
    && forall r | r in p.decls :: DeclWellFormed(p, r)
  }

  /** Distinct reflections have distinct ids. */
  predicate CollisionFree(p: Program)
    requires p.id.Keys == p.decls.Keys
  {
    forall r, s | r in p.decls && s in p.decls && p.id[r] == p.id[s] :: r == s
  }

  function IdsOf(p: Program, s: seq<Refl>): (ids: seq<Info>)
    requires WellFormed(p) && forall i | 0 <= i < |s| :: s[i] in p.decls
    ensures |ids| == |s| && forall i | 0 <= i < |s| :: ids[i] == p.id[s[i]]
  {
    seq(|s|, i requires 0 <= i < |s| => p.id[s[i]])
  }

  /** The view of a member that the metadata passes work on. */
  function MemberOf(p: Program, m: Refl): Member
    requires WellFormed(p) && m in p.decls
    requires IsType(p, m) || p.decls[m].DataMemberDecl? || p.decls[m].FunctionDecl?
  {
    match p.decls[m]
    case DataMemberDecl(_, _, identifier, reflectable, isStatic, _) =>
      Member(p.id[m], if isStatic then StaticData else NonstaticData, reflectable, Some(identifier))
    case FunctionDecl(_, _, maybeIdentifier, reflectable, kind, _, _, _) =>
      Member(p.id[m], kind, reflectable, maybeIdentifier)
    case d => Member(p.id[m], NestedType, m in p.annotated, if m in p.annotated then p.annotated[m] else None)
  }

  function MembersOf(p: Program, c: Refl): (ms: seq<Member>)
    requires WellFormed(p) && c in p.decls && p.decls[c].ClassType?
    ensures |ms| == |p.decls[c].members|
    ensures forall i | 0 <= i < |ms| :: IsMemberOf(p, c, p.decls[c].members[i])
    ensures forall i | 0 <= i < |ms| :: ms[i] == MemberOf(p, p.decls[c].members[i])
  {
    var members := p.decls[c].members;
    assert DeclWellFormed(p, c);
    seq(|members|, i requires 0 <= i < |members| => MemberOf(p, members[i]))
  }

  // ----- The entity each declaration becomes -----

  function ClassStub(d: Decl): Entity
    requires d.ClassType?
  {
    ClassEntity(d.display, d.attributes, NO_MEMBERS)
  }

  function FullClass(p: Program, c: Refl): Entity
    requires WellFormed(p) && c in p.decls && p.decls[c].ClassType?
  {
    assert DeclWellFormed(p, c);
    ClassEntity(p.decls[c].display, p.decls[c].attributes,
                RuntimeLists(IdsOf(p, p.decls[c].bases), MembersOf(p, c)))
  }

  function EnumStub(d: Decl): Entity
    requires d.EnumType?
  {
    EnumEntity(d.display, d.attributes, INVALID_INFO, [])
  }

  function EntryOf(p: Program, e: Refl): EnumEntry
    requires WellFormed(p) && e in p.decls && p.decls[e].EnumeratorDecl?
  {
    var d := p.decls[e];
    EnumEntry(d.identifier, d.valueBits, d.isSigned, p.id[e])
  }

  /** set_underlying_type_id and StaticEnumMetadata::apply on a stored enum. */
  function WithEnumerators(p: Program, e: Entity, r: Refl): Entity
    requires WellFormed(p) && r in p.decls && p.decls[r].EnumType? && e.EnumEntity?
  {
    var d := p.decls[r];
    assert DeclWellFormed(p, r);
    e.(underlyingId := p.id[d.underlying],
       entries := seq(|d.enumerators|, i requires 0 <= i < |d.enumerators| => EntryOf(p, d.enumerators[i])))
  }

  function ParameterOf(p: Program, q: Refl, ownerId: Info, index: nat): Entity
    requires WellFormed(p) && q in p.decls && p.decls[q].ParameterDecl?
  {
    var d := p.decls[q];
    assert DeclWellFormed(p, q);
    ParameterEntity(if d.maybeIdentifier.Some? then d.maybeIdentifier.value else "", d.display,
                    p.id[d.paramType], p.id[d.decayedType], ownerId, index)
  }

  function FunctionOf(p: Program, f: Refl): Entity
    requires WellFormed(p) && f in p.decls && (p.decls[f].FreeFunction? || p.decls[f].FunctionDecl?)
  {
    var d := p.decls[f];
    assert DeclWellFormed(p, f);
    var returnId := if d.signature.returnType.Some? then p.id[d.signature.returnType.value] else INVALID_INFO;
    // a destructor's signature is never applied
    var ids := IdsOf(p, d.signature.parameters);
    if d.FreeFunction? then
      FunctionEntity(d.identifier, d.display, FunctionFlags(false, false, false, false, false),
                     INVALID_INFO, returnId, ids)
    else
      var name := if d.kind.MemberFunction? && d.maybeIdentifier.Some? then d.maybeIdentifier.value else d.display;
      FunctionEntity(name, d.display,
                     FunctionFlags(true, d.kind.MemberFunction? && d.isStatic,
                                   d.kind.MemberFunction? && !d.isStatic && d.isConst,
                                   d.kind.Constructor?, d.kind.Destructor?),
                     p.id[d.owner], returnId,
                     if d.kind.Destructor? then [] else ids)
  }

  function DataMemberOf(p: Program, m: Refl): Entity
    requires WellFormed(p) && m in p.decls && p.decls[m].DataMemberDecl?
  {
    var d := p.decls[m];
    assert DeclWellFormed(p, m);
    DataMemberEntity(d.identifier, d.display, d.isStatic, p.id[d.memberType],
                     p.id[d.owner])
  }

  function BaseOf(p: Program, b: Refl): Entity
    requires WellFormed(p) && b in p.decls && p.decls[b].BaseDecl?
  {
    var d := p.decls[b];
    assert DeclWellFormed(p, b);
    var upcast := if d.access.Public? then d.upcast else None;
    BaseEntity(p.decls[d.baseType].display, d.display, p.id[d.baseType],
               p.id[d.owner], d.access, d.isVirtual, upcast)
  }

  function VariableOf(p: Program, v: Refl): Entity
    requires WellFormed(p) && v in p.decls && p.decls[v].GlobalVariable?
  {
    assert DeclWellFormed(p, v);
    VariableEntity(p.decls[v].identifier, p.decls[v].display, p.id[p.decls[v].varType])
  }

  function EnumeratorOf(p: Program, e: Refl): Entity
    requires WellFormed(p) && e in p.decls && p.decls[e].EnumeratorDecl?
  {
    var d := p.decls[e];
    assert DeclWellFormed(p, e);
    EnumeratorEntity(d.identifier, d.display, d.valueBits, d.isSigned,
                     p.id[d.owner])
  }
}
