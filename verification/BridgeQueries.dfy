/** What the Flow bridge reads from a registry that a run of registrations has built. */
module BridgeQueries {
  import opened Core
  import opened ClassMetadata
  import opened Entities
  import opened RegistrySpec
  import opened RegistryCanon
  import opened RegistryOrder
  import opened RegistryTheorems
  import opened LifecycleQueries
  import FlowHandles

  function RoleOf(flags: FunctionFlags): FlowHandles.Role {
    if flags.isConstructor then FlowHandles.Constructor
    else if flags.isDestructor then FlowHandles.Destructor
    else FlowHandles.Plain
  }

  function ParameterTypes(reg: Store, ps: seq<Info>): (types: seq<Info>)
    ensures |types| == |ps|
  {
    seq(|ps|, i requires 0 <= i < |ps| =>
      if ps[i] in reg && reg[ps[i]].ParameterEntity? then reg[ps[i]].typeId else INVALID_INFO)
  }

  function FunctionSeen(reg: Store, f: Info): FlowHandles.Function
    requires f in reg && reg[f].FunctionEntity?
  {
    FlowHandles.Function(RoleOf(reg[f].flags), reg[f].flags.isStatic, reg[f].parentId,
                         ParameterTypes(reg, reg[f].parameterIds), reg[f].returnTypeId)
  }

  predicate IsStoredClass(reg: Store, c: Info) {
    c in reg && reg[c].ClassEntity?
  }

  /** pointerTo: the id of T* by that of T; byteSpan: the id of std::span<const uint8_t>,
      a class whose values the bridge carries as bytes; copyable: by type. */
  function ReflectionOf(reg: Store, pointerTo: Info -> Info, byteSpan: Info, copyable: set<Info>)
    : FlowHandles.Reflection
  {
    FlowHandles.Reflection(
      map f | f in reg && f != INVALID_INFO && reg[f].FunctionEntity? :: FunctionSeen(reg, f),
      (set x | x in reg && x != INVALID_INFO && !reg[x].FunctionEntity?),
      map c | c in reg && c != INVALID_INFO && reg[c].ClassEntity? :: reg[c].lists.destructor,
      map c | c in reg && reg[c].ClassEntity? :: pointerTo(c),
      (set c | c in reg && c != INVALID_INFO && c != byteSpan && reg[c].ClassEntity?),
      copyable)
  }

  /** A stored constructor or destructor is a member of a stored class, and a
      destructor has no parameters. */
  lemma SpecialMember(p: Program, rs: seq<Refl>, f: Info)
    requires Sound(p) && AllTopLevel(p, Roots(rs))
    requires f in Built(p, rs).entities && Built(p, rs).entities[f].FunctionEntity?
    ensures var reg := Built(p, rs).entities; var flags := reg[f].flags;
            && (flags.isDestructor ==> reg[f].parameterIds == [] && !flags.isConstructor)
            && (flags.isConstructor || flags.isDestructor ==> IsStoredClass(reg, reg[f].parentId))
  {
    RunIsCanonical(p, rs);
    var g := Reached(p, Roots(rs));
    assert f in Images(p, Present(p, g));
    var r :| r in Present(p, g) && p.id[r] == f;
    Stored(p, g, r);
    FunctionFlagsOf(p, r, r in g.full);
    RunsAreClosed(p, rs, f);
  }

  lemma FunctionFlagsOf(p: Program, r: Refl, full: bool)
    requires WellFormed(p) && r in p.decls && EntityOf(p, r, full).FunctionEntity?
    ensures var e := EntityOf(p, r, full);
            && (e.flags.isDestructor ==> e.parameterIds == [] && !e.flags.isConstructor)
            && (e.flags.isConstructor || e.flags.isDestructor ==> e.flags.isMember)
  {
  }

  /** In every registry built at run time without an entity of the invalid id, the
      handle table's assumptions hold, so its theorems apply. */
  lemma RunsAreCoherent(p: Program, rs: seq<Refl>, pointerTo: Info -> Info, byteSpan: Info, copyable: set<Info>)
    requires Sound(p) && AllTopLevel(p, Roots(rs)) && INVALID_INFO !in Built(p, rs).entities
    requires forall c :: pointerTo(c) != INVALID_INFO
    ensures FlowHandles.Coherent(ReflectionOf(Built(p, rs).entities, pointerTo, byteSpan, copyable))
  {
    var reg := Built(p, rs).entities;
    var r := ReflectionOf(reg, pointerTo, byteSpan, copyable);
    forall f | f in r.functions ensures FlowHandles.FunctionOk(r, r.functions[f]) {
      SpecialMember(p, rs, f);
    }
    forall c | c in r.destructorOf && r.destructorOf[c] != INVALID_INFO
      ensures r.destructorOf[c] in r.functions && r.functions[r.destructorOf[c]].role == FlowHandles.Destructor
              && r.functions[r.destructorOf[c]].parent == c
    {
      DestructorIsOwn(p, rs, c);
      SpecialMember(p, rs, r.destructorOf[c]);
    }
  }

  /** When no pointer type shares the id of a stored class, release_aggregate with
      class ids cannot lose an object. */
  lemma RunsKeepPointersApart(p: Program, rs: seq<Refl>, pointerTo: Info -> Info, byteSpan: Info, copyable: set<Info>)
    requires Sound(p) && AllTopLevel(p, Roots(rs))
    requires forall c | IsStoredClass(Built(p, rs).entities, c) :: !IsStoredClass(Built(p, rs).entities, pointerTo(c))
    ensures FlowHandles.PointersApart(ReflectionOf(Built(p, rs).entities, pointerTo, byteSpan, copyable))
  {
    assert forall c | c in ReflectionOf(Built(p, rs).entities, pointerTo, byteSpan, copyable).pointerTo ::
        IsStoredClass(Built(p, rs).entities, c);
  }
}
