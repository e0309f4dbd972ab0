/** What a registry built by a run of registrations says of each declaration, field by
    field, in the terms of the declaration. */
module StoredEntities {
  import opened Core
  import opened ClassMetadata
  import opened Entities
  import opened RegistrySpec
  import opened RegistryCanon
  import opened RegistryOrder
  import opened RegistryRuns
  import opened RegistryTheorems
  import opened LifecycleQueries

  // ----- Entities without parts -----

  ghost predicate SaysType(p: Program, r: Refl, e: Entity)
    requires p.id.Keys == p.decls.Keys && r in p.decls && p.decls[r].PlainType?
  {
    var d := p.decls[r];
    && e.TypeEntity? && e.name == d.display && e.attributes == d.attributes
    && (d.target.None? ==> e.underlyingId == INVALID_INFO)
    && (d.target.Some? ==> d.target.value in p.id && e.underlyingId == p.id[d.target.value])
  }

  ghost predicate SaysVariable(p: Program, r: Refl, e: Entity)
    requires p.id.Keys == p.decls.Keys && r in p.decls && p.decls[r].GlobalVariable?
  {
    var d := p.decls[r];
    d.varType in p.id && e == VariableEntity(d.identifier, d.display, p.id[d.varType])
  }

  ghost predicate SaysDataMember(p: Program, r: Refl, e: Entity)
    requires p.id.Keys == p.decls.Keys && r in p.decls && p.decls[r].DataMemberDecl?
  {
    var d := p.decls[r];
    d.memberType in p.id && d.owner in p.id
    && e == DataMemberEntity(d.identifier, d.display, d.isStatic, p.id[d.memberType], p.id[d.owner])
  }

  ghost predicate SaysParameter(p: Program, r: Refl, e: Entity)
    requires p.id.Keys == p.decls.Keys && r in p.decls && p.decls[r].ParameterDecl?
  {
    var d := p.decls[r];
    && e.ParameterEntity? && d.paramType in p.id && d.decayedType in p.id && d.owner in p.id
    && e.name == (match d.maybeIdentifier case Some(n) => n case None => "") && e.display == d.display
    && e.typeId == p.id[d.paramType] && e.decayedTypeId == p.id[d.decayedType] && e.parentId == p.id[d.owner]
    && (p.decls[d.owner].FreeFunction? || p.decls[d.owner].FunctionDecl? ==>
          forall i | 0 <= i < |p.decls[d.owner].signature.parameters|
                     && p.decls[d.owner].signature.parameters[i] == r :: e.index == i)
  }

  ghost predicate SaysEnumerator(p: Program, r: Refl, e: Entity)
    requires p.id.Keys == p.decls.Keys && r in p.decls && p.decls[r].EnumeratorDecl?
  {
    var d := p.decls[r];
    d.owner in p.id && e == EnumeratorEntity(d.identifier, d.display, d.valueBits, d.isSigned, p.id[d.owner])
  }

  /** Only a public base carries its adjustment. */
  ghost predicate SaysBase(p: Program, r: Refl, e: Entity)
    requires p.id.Keys == p.decls.Keys && r in p.decls && p.decls[r].BaseDecl?
  {
    var d := p.decls[r];
    && e.BaseEntity? && d.baseType in p.id && d.owner in p.id && p.decls[d.baseType].ClassType?
    && e.name == p.decls[d.baseType].display && e.display == d.display
    && e.typeId == p.id[d.baseType] && e.parentId == p.id[d.owner]
    && e.access == d.access && e.isVirtual == d.isVirtual
    && (d.access == Public ==> e.upcast == d.upcast) && (d.access != Public ==> e.upcast == None)
  }

  ghost predicate IdsAre(p: Program, rs: seq<Refl>, ids: seq<Info>) {
    |ids| == |rs| && forall i | 0 <= i < |rs| :: rs[i] in p.id && ids[i] == p.id[rs[i]]
  }

  /** Constructors and destructors return nothing, destructors take nothing, and only
      member functions proper are static or const or have an identifier. */
  ghost predicate SaysFunction(p: Program, r: Refl, e: Entity)
    requires p.id.Keys == p.decls.Keys && r in p.decls && (p.decls[r].FreeFunction? || p.decls[r].FunctionDecl?)
  {
    var d := p.decls[r];
    && e.FunctionEntity? && e.display == d.display
    && (match d.signature.returnType
        case None => e.returnTypeId == INVALID_INFO
        case Some(t) => t in p.id && e.returnTypeId == p.id[t])
    && (d.FreeFunction? ==>
          && e.name == d.identifier && e.parentId == INVALID_INFO && IdsAre(p, d.signature.parameters, e.parameterIds)
          && e.flags == FunctionFlags(false, false, false, false, false))
    && (d.FunctionDecl? ==>
          && d.owner in p.id && e.parentId == p.id[d.owner]
          && match d.kind
             case Constructor => SaysSpecial(p, d, e, true)
             case Destructor => SaysSpecial(p, d, e, false)
             case _ =>
               && e.name == (match d.maybeIdentifier case Some(n) => n case None => d.display)
               && IdsAre(p, d.signature.parameters, e.parameterIds)
               && e.flags == FunctionFlags(true, d.isStatic, d.isConst && !d.isStatic, false, false))
  }

  ghost predicate SaysSpecial(p: Program, d: Decl, e: Entity, isConstructor: bool)
    requires d.FunctionDecl? && e.FunctionEntity?
  {
    && e.name == d.display
    && (if isConstructor then IdsAre(p, d.signature.parameters, e.parameterIds) else e.parameterIds == [])
    && e.flags == FunctionFlags(true, false, false, isConstructor, !isConstructor)
  }

  // ----- Enums -----

  /** An enum has its underlying type and its enumerators once it is completed. */
  ghost predicate SaysEnum(p: Program, r: Refl, complete: bool, e: Entity)
    requires p.id.Keys == p.decls.Keys && r in p.decls && p.decls[r].EnumType?
  {
    var d := p.decls[r];
    && e.EnumEntity? && e.name == d.display && e.attributes == d.attributes
    && (!complete ==> e.underlyingId == INVALID_INFO && e.entries == [])
    && (complete ==>
          && d.underlying in p.id && e.underlyingId == p.id[d.underlying] && |e.entries| == |d.enumerators|
          && forall i | 0 <= i < |d.enumerators| :: SaysEntry(p, d.enumerators[i], e.entries[i]))
  }

  ghost predicate SaysEntry(p: Program, x: Refl, entry: EnumEntry) {
    && x in p.decls && x in p.id && p.decls[x].EnumeratorDecl?
    && entry == EnumEntry(p.decls[x].identifier, p.decls[x].valueBits, p.decls[x].isSigned, p.id[x])
  }

  // ----- Classes -----

  /** The declarations that are wanted, in order. */
  function Keep(ms: seq<Refl>, want: Refl -> bool): (kept: seq<Refl>) {
    if ms == [] then []
    else Keep(ms[..|ms| - 1], want) + if want(ms[|ms| - 1]) then [ms[|ms| - 1]] else []
  }

  /** Carries the reflectable annotation. */
  predicate Annotated(p: Program, m: Refl) {
    m in p.decls
    && match p.decls[m]
       case DataMemberDecl(_, _, _, reflectable, _, _) => reflectable
       case FunctionDecl(_, _, _, reflectable, _, _, _, _) => reflectable
       case _ => m in p.annotated
  }

  predicate IsFunctionOf(p: Program, m: Refl, kind: MemberKind) {
    m in p.decls && p.decls[m].FunctionDecl? && p.decls[m].kind == kind
  }

  predicate IsData(p: Program, m: Refl, isStatic: bool) {
    m in p.decls && p.decls[m].DataMemberDecl? && p.decls[m].isStatic == isStatic
  }

  /** The identifier a member is found under, if it has one. */
  function IdentifierOf(p: Program, m: Refl): Option<string> {
    if m !in p.decls then None
    else
      match p.decls[m]
      case DataMemberDecl(_, _, identifier, _, _, _) => Some(identifier)
      case FunctionDecl(_, _, maybeIdentifier, _, _, _, _, _) => maybeIdentifier
      case _ => if m in p.annotated then p.annotated[m] else None
  }

  /** Annotated members are listed, and destructors even when they are not. */
  predicate IsListed(p: Program, m: Refl) {
    Annotated(p, m) || IsFunctionOf(p, m, Destructor)
  }

  function Listed(p: Program): Refl -> bool {
    (m: Refl) => IsListed(p, m)
  }

  function DataOf(p: Program, isStatic: bool): Refl -> bool {
    (m: Refl) => Annotated(p, m) && IsData(p, m, isStatic)
  }

  function FunctionsOf(p: Program, kind: MemberKind): Refl -> bool {
    (m: Refl) => Annotated(p, m) && IsFunctionOf(p, m, kind)
  }

  /** The member lists of a completed class. */
  ghost predicate SaysLists(p: Program, r: Refl, lists: MemberLists)
    requires p.id.Keys == p.decls.Keys && r in p.decls && p.decls[r].ClassType?
  {
    var ms := p.decls[r].members;
    && IdsAre(p, p.decls[r].bases, lists.bases)
    && IdsAre(p, Keep(ms, Listed(p)), lists.members)
    && IdsAre(p, Keep(ms, DataOf(p, false)), lists.nonstaticData)
    && IdsAre(p, Keep(ms, DataOf(p, true)), lists.staticData)
    && IdsAre(p, Keep(ms, FunctionsOf(p, MemberFunction)), lists.functions)
    && IdsAre(p, Keep(ms, FunctionsOf(p, Constructor)), lists.constructors)
    && SaysDestructor(p, ms, lists.destructor)
  }

  /** The destructor is the last one declared; without one the id is invalid. */
  ghost predicate SaysDestructor(p: Program, ms: seq<Refl>, id: Info) {
    && (forall k | 0 <= k < |ms| && IsFunctionOf(p, ms[k], Destructor)
                   && (forall j | k < j < |ms| :: !IsFunctionOf(p, ms[j], Destructor)) ::
          ms[k] in p.id && id == p.id[ms[k]])
    && ((forall k | 0 <= k < |ms| :: !IsFunctionOf(p, ms[k], Destructor)) ==> id == INVALID_INFO)
  }

  ghost predicate SaysClass(p: Program, r: Refl, complete: bool, e: Entity)
    requires p.id.Keys == p.decls.Keys && r in p.decls && p.decls[r].ClassType?
  {
    && e.ClassEntity? && e.name == p.decls[r].display && e.attributes == p.decls[r].attributes
    && (complete ==> SaysLists(p, r, e.lists))
    && (!complete ==> e.lists == MemberLists([], [], [], [], [], [], INVALID_INFO, []))
  }

  /** What the entity of a declaration says. */
  ghost predicate Says(p: Program, r: Refl, complete: bool, e: Entity)
    requires p.id.Keys == p.decls.Keys && r in p.decls
  {
    match p.decls[r]
    case PlainType(_, _, _, _, _) => SaysType(p, r, e)
    case ClassType(_, _, _, _, _) => SaysClass(p, r, complete, e)
    case EnumType(_, _, _, _, _) => SaysEnum(p, r, complete, e)
    case FreeFunction(_, _, _) => SaysFunction(p, r, e)
    case GlobalVariable(_, _, _) => SaysVariable(p, r, e)
    case BaseDecl(_, _, _, _, _, _) => SaysBase(p, r, e)
    case DataMemberDecl(_, _, _, _, _, _) => SaysDataMember(p, r, e)
    case FunctionDecl(_, _, _, _, _, _, _, _) => SaysFunction(p, r, e)
    case ParameterDecl(_, _, _, _, _) => SaysParameter(p, r, e)
    case EnumeratorDecl(_, _, _, _, _) => SaysEnumerator(p, r, e)
  }

  // ----- Every entity says it -----

  lemma {:induction false} KeptIds(p: Program, rs: seq<Refl>, ms: seq<Member>, want: Refl -> bool, pass: Member -> bool)
    requires |rs| == |ms| && forall k | 0 <= k < |rs| :: rs[k] in p.id && ms[k].id == p.id[rs[k]]
    requires forall k | 0 <= k < |rs| :: want(rs[k]) <==> pass(ms[k])
    ensures IdsAre(p, Keep(rs, want), Pick(ms, pass, IdOf))
  {
    if rs != [] {
      KeptIds(p, rs[..|rs| - 1], ms[..|ms| - 1], want, pass);
    }
  }

  /** A member's view and its declaration agree. */
  lemma MemberSays(p: Program, c: Refl, m: Refl)
    requires WellFormed(p) && IsMemberOf(p, c, m)
    ensures MemberOf(p, m).id == p.id[m]
    ensures Included(MemberOf(p, m)) <==> IsListed(p, m)
    ensures OfKind(MemberOf(p, m), NonstaticData) <==> Annotated(p, m) && IsData(p, m, false)
    ensures OfKind(MemberOf(p, m), StaticData) <==> Annotated(p, m) && IsData(p, m, true)
    ensures OfKind(MemberOf(p, m), MemberFunction) <==> Annotated(p, m) && IsFunctionOf(p, m, MemberFunction)
    ensures OfKind(MemberOf(p, m), Constructor) <==> Annotated(p, m) && IsFunctionOf(p, m, Constructor)
    ensures MemberOf(p, m).kind.Destructor? <==> IsFunctionOf(p, m, Destructor)
    ensures MemberOf(p, m).identifier == IdentifierOf(p, m)
  {
    assert DeclWellFormed(p, m);
  }

  lemma {:induction false} DestructorSays(p: Program, rs: seq<Refl>, ms: seq<Member>)
    requires |rs| == |ms| && forall k | 0 <= k < |rs| :: rs[k] in p.id && ms[k].id == p.id[rs[k]]
    requires forall k | 0 <= k < |rs| :: ms[k].kind.Destructor? <==> IsFunctionOf(p, rs[k], Destructor)
    ensures SaysDestructor(p, rs, LastDestructor(ms))
  {
    if rs != [] && !ms[|ms| - 1].kind.Destructor? {
      DestructorSays(p, rs[..|rs| - 1], ms[..|ms| - 1]);
      var front := rs[..|rs| - 1];
      forall k | 0 <= k < |rs| && IsFunctionOf(p, rs[k], Destructor)
                 && (forall j | k < j < |rs| :: !IsFunctionOf(p, rs[j], Destructor))
        ensures rs[k] in p.id && LastDestructor(ms) == p.id[rs[k]]
      {
        assert front[k] == rs[k];
        assert forall j | k < j < |front| :: front[j] == rs[j];
      }
    }
  }

  /** The declarations of a class and the views of its members, position by position. */
  ghost predicate Aligned(p: Program, rs: seq<Refl>, ms: seq<Member>) {
    |rs| == |ms| && forall k | 0 <= k < |rs| :: AlignedAt(p, rs[k], ms[k])
  }

  ghost predicate AlignedAt(p: Program, r: Refl, m: Member) {
    && r in p.id && m.id == p.id[r]
    && (Included(m) <==> IsListed(p, r))
    && (OfKind(m, NonstaticData) <==> Annotated(p, r) && IsData(p, r, false))
    && (OfKind(m, StaticData) <==> Annotated(p, r) && IsData(p, r, true))
    && (OfKind(m, MemberFunction) <==> Annotated(p, r) && IsFunctionOf(p, r, MemberFunction))
    && (OfKind(m, Constructor) <==> Annotated(p, r) && IsFunctionOf(p, r, Constructor))
    && (m.kind.Destructor? <==> IsFunctionOf(p, r, Destructor))
    && m.identifier == IdentifierOf(p, r)
  }

  lemma MembersAligned(p: Program, c: Refl)
    requires WellFormed(p) && c in p.decls && p.decls[c].ClassType?
    ensures Aligned(p, p.decls[c].members, MembersOf(p, c))
  {
    var rs, ms := p.decls[c].members, MembersOf(p, c);
    forall k | 0 <= k < |rs| ensures AlignedAt(p, rs[k], ms[k]) {
      MemberSays(p, c, rs[k]);
    }
  }

  lemma ListsSay(p: Program, rs: seq<Refl>, ms: seq<Member>)
    requires Aligned(p, rs, ms)
    ensures IdsAre(p, Keep(rs, Listed(p)), Pick(ms, Included, IdOf))
    ensures IdsAre(p, Keep(rs, DataOf(p, false)), IdsOfKind(ms, NonstaticData))
    ensures IdsAre(p, Keep(rs, DataOf(p, true)), IdsOfKind(ms, StaticData))
    ensures IdsAre(p, Keep(rs, FunctionsOf(p, MemberFunction)), IdsOfKind(ms, MemberFunction))
    ensures IdsAre(p, Keep(rs, FunctionsOf(p, Constructor)), IdsOfKind(ms, Constructor))
    ensures SaysDestructor(p, rs, LastDestructor(ms))
  {
    assert forall k | 0 <= k < |rs| :: AlignedAt(p, rs[k], ms[k]);
    KeptIds(p, rs, ms, Listed(p), Included);
    KeptIds(p, rs, ms, DataOf(p, false), m => OfKind(m, NonstaticData));
    KeptIds(p, rs, ms, DataOf(p, true), m => OfKind(m, StaticData));
    KeptIds(p, rs, ms, FunctionsOf(p, MemberFunction), m => OfKind(m, MemberFunction));
    KeptIds(p, rs, ms, FunctionsOf(p, Constructor), m => OfKind(m, Constructor));
    DestructorSays(p, rs, ms);
  }

  lemma ClassSays(p: Program, c: Refl)
    requires WellFormed(p) && c in p.decls && p.decls[c].ClassType?
    ensures SaysClass(p, c, true, FullClass(p, c))
  {
    assert DeclWellFormed(p, c);
    assert forall k | 0 <= k < |p.decls[c].bases| :: IsBaseOf(p, c, p.decls[c].bases[k]);
    MembersAligned(p, c);
    ListsSay(p, p.decls[c].members, MembersOf(p, c));
  }

  lemma FunctionSays(p: Program, f: Refl)
    requires WellFormed(p) && f in p.decls && (p.decls[f].FreeFunction? || p.decls[f].FunctionDecl?)
    ensures SaysFunction(p, f, FunctionOf(p, f))
  {
    assert DeclWellFormed(p, f);
    var ps := p.decls[f].signature.parameters;
    assert forall i | 0 <= i < |ps| :: IsParameterOf(p, f, ps[i]);
  }

  lemma ParameterSays(p: Program, q: Refl)
    requires WellFormed(p) && q in p.decls && p.decls[q].ParameterDecl?
    ensures SaysParameter(p, q, EntityOf(p, q, false))
  {
    assert DeclWellFormed(p, q);
    var f := p.decls[q].owner;
    if p.decls[f].FreeFunction? || p.decls[f].FunctionDecl? {
      assert DeclWellFormed(p, f);
      var ps := p.decls[f].signature.parameters;
      forall i | 0 <= i < |ps| && ps[i] == q ensures PositionOf(ps, q) == i {
        PositionOfDistinct(ps, i);
      }
    }
  }

  lemma EnumSays(p: Program, e: Refl, complete: bool)
    requires WellFormed(p) && e in p.decls && p.decls[e].EnumType?
    ensures SaysEnum(p, e, complete, EntityOf(p, e, complete))
  {
    assert DeclWellFormed(p, e);
    var xs := p.decls[e].enumerators;
    assert forall i | 0 <= i < |xs| :: IsEnumeratorOf(p, e, xs[i]);
  }

  lemma EntitySays(p: Program, r: Refl, complete: bool)
    requires WellFormed(p) && r in p.decls
    ensures Says(p, r, complete, EntityOf(p, r, complete))
  {
    assert DeclWellFormed(p, r);
    match p.decls[r]
    case ClassType(_, _, _, _, _) =>
      if complete {
        ClassSays(p, r);
      }
    case EnumType(_, _, _, _, _) => EnumSays(p, r, complete);
    case FreeFunction(_, _, _) => FunctionSays(p, r);
    case FunctionDecl(_, _, _, _, _, _, _, _) => FunctionSays(p, r);
    case ParameterDecl(_, _, _, _, _) => ParameterSays(p, r);
    case _ =>
  }

  /** After any run, whatever is stored for a declaration says what the declaration says;
      classes and enums are complete exactly when they were registered themselves or as
      a base class. */
  lemma StoredSays(p: Program, rs: seq<Refl>, r: Refl)
    requires Sound(p) && AllTopLevel(p, Roots(rs)) && r in p.decls && p.id[r] in Built(p, rs).entities
    ensures Says(p, r, r in Reached(p, Roots(rs)).full, Built(p, rs).entities[p.id[r]])
  {
    RunIsCanonical(p, rs);
    var g := Reached(p, Roots(rs));
    assert p.id[r] in Images(p, Present(p, g));
    var q :| q in Present(p, g) && p.id[q] == p.id[r];
    assert q == r;
    Stored(p, g, r);
    EntitySays(p, r, r in g.full);
  }

  // ----- What is completed, and what is stored -----

  /** c has a base of class d. */
  predicate DerivesFrom(p: Program, c: Refl, d: Refl) {
    c in p.decls && p.decls[c].ClassType?
    && exists b :: b in p.decls[c].bases && b in p.decls && p.decls[b].BaseDecl? && p.decls[b].baseType == d
  }

  /** A chain of bases leads from q to r. */
  ghost predicate IsChain(p: Program, q: Refl, r: Refl, chain: seq<Refl>) {
    chain != [] && chain[0] == q && chain[|chain| - 1] == r
    && forall i | 0 < i < |chain| :: DerivesFrom(p, chain[i - 1], chain[i])
  }

  /** r is q, or the class of a base of q, or of a base of that class, and so on. */
  ghost predicate Inherits(p: Program, q: Refl, r: Refl) {
    exists chain :: IsChain(p, q, r, chain)
  }

  lemma ChainOf(p: Program, q: Refl, d: Refl, r: Refl)
    requires DerivesFrom(p, q, d) && Inherits(p, d, r)
    ensures Inherits(p, q, r)
  {
    var chain :| IsChain(p, d, r, chain);
    var longer := [q] + chain;
    forall i | 0 < i < |longer| ensures DerivesFrom(p, longer[i - 1], longer[i]) {
      if i > 1 {
        assert longer[i - 1] == chain[i - 2] && longer[i] == chain[i - 1];
      }
    }
    assert IsChain(p, q, r, longer);
  }

  lemma InheritsItself(p: Program, q: Refl)
    ensures Inherits(p, q, q)
  {
    assert IsChain(p, q, q, [q]);
  }

  lemma BaseDerives(p: Program, c: Refl, k: nat)
    requires WellFormed(p) && c in p.decls && p.decls[c].ClassType? && k < |p.decls[c].bases|
    ensures DerivesFrom(p, c, BaseTypeAt(p, c, k))
  {
    var b := p.decls[c].bases[k];
    assert DeclWellFormed(p, c) && IsBaseOf(p, c, b);
    assert b in p.decls[c].bases;
  }

  lemma DerivesBase(p: Program, c: Refl, d: Refl) returns (k: nat)
    requires WellFormed(p) && DerivesFrom(p, c, d)
    ensures k < |p.decls[c].bases| && BaseTypeAt(p, c, k) == d
  {
    var b :| b in p.decls[c].bases && b in p.decls && p.decls[b].BaseDecl? && p.decls[b].baseType == d;
    k :| 0 <= k < |p.decls[c].bases| && p.decls[c].bases[k] == b;
  }

  lemma {:induction false} FullsInherit(p: Program, q: Refl, r: Refl)
    requires WellFormed(p) && IsTopLevel(p, q) && r in Fulls(p, q)
    ensures Inherits(p, q, r)
    decreases p.rank[q], 1
  {
    InheritsItself(p, q);
    if p.decls[q].ClassType? && r != q {
      BasesFullsInherit(p, q, |p.decls[q].bases|, r);
    }
  }

  lemma {:induction false} BasesFullsInherit(p: Program, c: Refl, k: nat, r: Refl)
    requires WellFormed(p) && c in p.decls && p.decls[c].ClassType? && k <= |p.decls[c].bases|
    requires r in BasesFulls(p, c, k)
    ensures Inherits(p, c, r)
    decreases p.rank[c], 0, k
  {
    if r in BasesFulls(p, c, k - 1) {
      BasesFullsInherit(p, c, k - 1, r);
    } else {
      FullsInherit(p, BaseTypeAt(p, c, k - 1), r);
      BaseDerives(p, c, k - 1);
      ChainOf(p, c, BaseTypeAt(p, c, k - 1), r);
    }
  }

  ghost predicate BasesIn(p: Program, full: set<Refl>) {
    forall c, d | c in full && DerivesFrom(p, c, d) :: d in full
  }

  lemma {:induction false} ChainIn(p: Program, full: set<Refl>, q: Refl, r: Refl, chain: seq<Refl>)
    requires BasesIn(p, full) && q in full && IsChain(p, q, r, chain)
    ensures r in full
    decreases |chain|
  {
    if |chain| > 1 {
      assert DerivesFrom(p, chain[0], chain[1]);
      var rest := chain[1..];
      forall i | 0 < i < |rest| ensures DerivesFrom(p, rest[i - 1], rest[i]) {
        assert DerivesFrom(p, chain[i], chain[i + 1]);
      }
      ChainIn(p, full, chain[1], r, rest);
    }
  }

  lemma FullBasesIn(p: Program, g: Progress)
    requires Sound(p) && Legal(p, g)
    ensures BasesIn(p, g.full)
  {
    forall c, d | c in g.full && DerivesFrom(p, c, d) ensures d in g.full {
      var k := DerivesBase(p, c, d);
      BaseClassFull(p, g, c, k);
    }
  }

  lemma BaseClassFull(p: Program, g: Progress, c: Refl, k: nat)
    requires Sound(p) && Legal(p, g) && c in g.full && p.decls[c].ClassType? && k < |p.decls[c].bases|
    ensures BaseTypeAt(p, c, k) in g.full
  {
    assert BaseTypeAt(p, c, k) in BasesFulls(p, c, |p.decls[c].bases|);
  }

  /** r was registered, or a class that derives from it was. */
  ghost predicate RegisteredWith(p: Program, rs: seq<Refl>, r: Refl) {
    exists q :: q in rs && q in p.decls && !p.decls[q].PlainType? && Inherits(p, q, r)
  }

  lemma CompletedWith(p: Program, roots: set<Refl>, r: Refl) returns (q: Refl)
    requires WellFormed(p) && AllTopLevel(p, roots) && r in Reached(p, roots).full
    ensures q in roots && q in p.decls && r in Fulls(p, q)
  {
    q :| q in roots && r in Fulls(p, q);
  }

  lemma RegisteredFull(p: Program, roots: set<Refl>, q: Refl)
    requires WellFormed(p) && AllTopLevel(p, roots) && q in roots && !p.decls[q].PlainType?
    ensures q in Reached(p, roots).full
  {
    assert q in Fulls(p, q);
  }

  /** After any run exactly the registered declarations that are more than plain types, and
      the classes they inherit from, are completed. */
  lemma CompletedIff(p: Program, rs: seq<Refl>, r: Refl)
    requires Sound(p) && AllTopLevel(p, Roots(rs))
    ensures r in Reached(p, Roots(rs)).full <==> RegisteredWith(p, rs, r)
  {
    RunIsCanonical(p, rs);
    if r in Reached(p, Roots(rs)).full {
      var q := CompletedWith(p, Roots(rs), r);
      FullsInherit(p, q, r);
    }
    if q :| q in rs && q in p.decls && !p.decls[q].PlainType? && Inherits(p, q, r) {
      var chain :| IsChain(p, q, r, chain);
      RegisteredFull(p, Roots(rs), q);
      FullBasesIn(p, Reached(p, Roots(rs)));
      ChainIn(p, Reached(p, Roots(rs)).full, q, r, chain);
    }
  }

  /** Only classes are inherited from. */
  lemma InheritedClass(p: Program, q: Refl, r: Refl)
    requires WellFormed(p) && Inherits(p, q, r) && q != r
    ensures r in p.decls && p.decls[r].ClassType?
  {
    var chain :| IsChain(p, q, r, chain);
    var n := |chain|;
    assert DerivesFrom(p, chain[n - 2], chain[n - 1]);
    var b :| b in p.decls[chain[n - 2]].bases && b in p.decls && p.decls[b].BaseDecl? && p.decls[b].baseType == r;
    assert DeclWellFormed(p, b);
  }

  /** After any run exactly the registered functions and variables are stored. */
  lemma RegisteredStoredIff(p: Program, rs: seq<Refl>, r: Refl)
    requires Sound(p) && AllTopLevel(p, Roots(rs)) && r in p.decls
    requires p.decls[r].FreeFunction? || p.decls[r].GlobalVariable?
    ensures p.id[r] in Built(p, rs).entities <==> r in rs
  {
    RunIsCanonical(p, rs);
    var g := Reached(p, Roots(rs));
    if p.id[r] in Built(p, rs).entities {
      assert p.id[r] in Images(p, Present(p, g));
      var x :| x in Present(p, g) && p.id[x] == p.id[r];
      assert x == r;
      WhyPresent(p, g, r);
      CompletedIff(p, rs, r);
      var q :| q in rs && q in p.decls && !p.decls[q].PlainType? && Inherits(p, q, r);
      if q != r {
        InheritedClass(p, q, r);
      }
    }
    if r in rs {
      RegisteredFull(p, Roots(rs), r);
      Stored(p, g, r);
    }
  }

  /** x is a declared part of something completed: a base, a listed member, a parameter of
      a stored function, an enumerator. */
  ghost predicate PartOf(p: Program, full: set<Refl>, x: Refl)
    requires x in p.decls
  {
    match p.decls[x]
    case BaseDecl(c, _, _, _, _, _) => c in full && c in p.decls && p.decls[c].ClassType? && x in p.decls[c].bases
    case DataMemberDecl(c, _, _, _, _, _) => ListedIn(p, full, c, x)
    case FunctionDecl(c, _, _, _, _, _, _, _) => ListedIn(p, full, c, x)
    case EnumeratorDecl(e, _, _, _, _) =>
      e in full && e in p.decls && p.decls[e].EnumType? && x in p.decls[e].enumerators
    case ParameterDecl(f, _, _, _, _) =>
      ParameterOfStored(p, full, f, x)
    case _ => false
  }

  ghost predicate ParameterOfStored(p: Program, full: set<Refl>, f: Refl, q: Refl) {
    f in p.decls
    && match p.decls[f]
       case FreeFunction(_, _, sig) => f in full && q in sig.parameters
       case FunctionDecl(c, _, _, _, kind, _, _, sig) =>
         ListedIn(p, full, c, f) && kind != Destructor && q in sig.parameters
       case _ => false
  }

  ghost predicate ListedIn(p: Program, full: set<Refl>, c: Refl, m: Refl) {
    c in full && c in p.decls && p.decls[c].ClassType? && m in p.decls[c].members && IsListed(p, m)
  }

  lemma ListedInPresent(p: Program, g: Progress, c: Refl, m: Refl)
    requires Sound(p) && Legal(p, g) && ListedIn(p, g.full, c, m) && !IsType(p, m)
    ensures m in Present(p, g)
  {
    var j :| 0 <= j < |p.decls[c].members| && p.decls[c].members[j] == m;
    MemberSays(p, c, MemberAt(p, c, j));
    IncludedMemberStored(p, g, c, j);
  }

  lemma PartPresent(p: Program, g: Progress, x: Refl)
    requires Sound(p) && Legal(p, g) && g.extra == {} && IsChild(p, x) && PartOf(p, g.full, x)
    ensures x in Present(p, g)
  {
    match p.decls[x]
    case BaseDecl(c, _, _, _, _, _) =>
      var k :| 0 <= k < |p.decls[c].bases| && p.decls[c].bases[k] == x;
      BasePresent(p, g, c, k);
    case DataMemberDecl(c, _, _, _, _, _) => ListedInPresent(p, g, c, x);
    case FunctionDecl(c, _, _, _, _, _, _, _) => ListedInPresent(p, g, c, x);
    case EnumeratorDecl(e, _, _, _, _) => EnumeratorPresent(p, g, e, x);
    case ParameterDecl(f, _, _, _, _) => ParameterPresent(p, g, f, x);
    case _ =>
  }

  lemma ParameterPresent(p: Program, g: Progress, f: Refl, q: Refl)
    requires Sound(p) && Legal(p, g) && g.extra == {} && IsChild(p, q) && PartOf(p, g.full, q)
    requires p.decls[q].ParameterDecl? && p.decls[q].owner == f
    ensures q in Present(p, g)
  {
    if p.decls[f].FunctionDecl? {
      ListedInPresent(p, g, p.decls[f].owner, f);
    }
    ParametersPresent(p, g, f);
    assert q in ParametersOf(p, f);
  }

  lemma MemberIsListed(p: Program, g: Progress, c: Refl, x: Refl) returns (j: nat)
    requires Sound(p) && Legal(p, g) && c in g.full && p.decls[c].ClassType?
    requires x in Children(p, c) && x in p.decls && !p.decls[x].BaseDecl?
    ensures j < |p.decls[c].members| && x in MemberEntities(p, c, MemberAt(p, c, j))
    ensures ListedIn(p, g.full, c, MemberAt(p, c, j))
  {
    j := ClassChild(p, g, c, x);
    MemberSays(p, c, MemberAt(p, c, j));
  }

  lemma PresentMember(p: Program, g: Progress, m: Refl)
    requires Sound(p) && Legal(p, g) && g.extra == {} && m in Present(p, g)
    requires p.decls[m].DataMemberDecl? || p.decls[m].FunctionDecl?
    ensures ListedIn(p, g.full, p.decls[m].owner, m)
  {
    WhyPresent(p, g, m);
    var c := TopOwner(p, m);
    OnlyClassesHaveMembers(p, c, m);
    var j := MemberIsListed(p, g, c, m);
    MemberEntityOwner(p, c, MemberAt(p, c, j), m);
  }

  lemma PresentPart(p: Program, g: Progress, x: Refl)
    requires Sound(p) && Legal(p, g) && g.extra == {} && IsChild(p, x) && x in Present(p, g)
    ensures PartOf(p, g.full, x)
  {
    match p.decls[x]
    case BaseDecl(_, _, _, _, _, _) => var c, k := BasePosition(p, g, x);
    case DataMemberDecl(_, _, _, _, _, _) => PresentMember(p, g, x);
    case FunctionDecl(_, _, _, _, _, _, _, _) => PresentMember(p, g, x);
    case EnumeratorDecl(_, _, _, _, _) => var e := EnumeratorOwner(p, g, x);
    case ParameterDecl(_, _, _, _, _) =>
      var f := ParameterFunction(p, g, x);
      if p.decls[f].FunctionDecl? {
        PresentMember(p, g, f);
      } else {
        WhyPresent(p, g, f);
      }
    case _ =>
  }

  /** After any run exactly the parts of what is completed are stored, besides types,
      functions and variables; so an unannotated member is not. */
  lemma PartStoredIff(p: Program, rs: seq<Refl>, x: Refl)
    requires Sound(p) && AllTopLevel(p, Roots(rs)) && IsChild(p, x)
    ensures p.id[x] in Built(p, rs).entities <==> PartOf(p, Reached(p, Roots(rs)).full, x)
  {
    RunIsCanonical(p, rs);
    var g := Reached(p, Roots(rs));
    if p.id[x] in Built(p, rs).entities {
      assert p.id[x] in Images(p, Present(p, g));
      var q :| q in Present(p, g) && p.id[q] == p.id[x];
      assert q == x;
      PresentPart(p, g, x);
    }
    if PartOf(p, g.full, x) {
      PartPresent(p, g, x);
      Stored(p, g, x);
    }
  }
}
