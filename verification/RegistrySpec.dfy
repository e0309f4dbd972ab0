/** The run-time registry as a state machine: what each registration step of
    include/cmm/detail/registry.hpp does to the registry's tables, for every
    program, id collisions included. */
module RegistrySpec {
  import opened Core
  import opened ClassMetadata
  import opened Entities

  datatype Materialization = DependencyStub | FullyMaterialized

  datatype State = State(
    entities: map<Info, Entity>,
    names: map<string, Info>,
    materialization: map<Info, Materialization>,
    registering: set<Info>,
    frozen: bool)

  const EMPTY := State(map[], map[], map[], {}, false)

  datatype Outcome = Outcome(state: State, error: Error)

  predicate IsFull(s: State, id: Info) {
    id in s.materialization && s.materialization[id] == FullyMaterialized
  }

  function MarkFull(s: State, id: Info): State {
    s.(materialization := s.materialization[id := FullyMaterialized])
  }

  /** add_lookup_name: a name added for two ids becomes ambiguous for good. */
  function AddName(names: map<string, Info>, name: string, id: Info): map<string, Info> {
    if name == "" then names
    else if name !in names then names[name := id]
    else if names[name] != id then names[name := INVALID_INFO]
    else names
  }

  function Naming(s: State, name: string, id: Info): State {
    s.(names := AddName(s.names, name, id))
  }

  /** std::unordered_map::emplace keeps an existing entry. */
  function Emplace<V>(m: map<Info, V>, id: Info, v: V): map<Info, V> {
    if id in m then m else m[id := v]
  }

  function InsertUnique(s: State, id: Info, e: Entity): Outcome {
    if id in s.entities then Outcome(s, EntityIdCollision)
    else Outcome(s.(entities := s.entities[id := e]), Success)
  }

  /** The name a type is filed under when it is first seen, if it gets one. */
  function DependencyName(d: Decl): string {
    match d
    case PlainType(_, canonical, _, isFundamental, _) => if isFundamental then canonical else ""
    case ClassType(_, canonical, _, _, _) => canonical
    case EnumType(_, canonical, _, _, _) => canonical
    case _ => ""
  }

  function PlainEntity(p: Program, t: Refl): Entity
    requires WellFormed(p) && t in p.decls && p.decls[t].PlainType?
  {
    var d := p.decls[t];
    assert DeclWellFormed(p, t);
    TypeEntity(d.display, d.attributes, if d.target.Some? then p.id[d.target.value] else INVALID_INFO)
  }

  function StubOf(d: Decl): Entity
    requires d.ClassType? || d.EnumType?
  {
    if d.ClassType? then ClassStub(d) else EnumStub(d)
  }

  function EnsureType(p: Program, s: State, t: Refl): (r: State)
    requires WellFormed(p) && IsType(p, t)
    ensures p.id[t] in r.entities
    ensures forall i | i in s.entities :: i in r.entities && r.entities[i] == s.entities[i]
    decreases p.rank[t]
  {
    var id, d := p.id[t], p.decls[t];
    if id in s.entities then s
    else if d.PlainType? then
      assert DeclWellFormed(p, t);
      var s1 := if d.target.Some? then EnsureType(p, s, d.target.value) else s;
      var s2 := MarkFull(s1.(entities := Emplace(s1.entities, id, PlainEntity(p, t))), id);
      Naming(s2, DependencyName(d), id)
    else
      var s2 := s.(entities := s.entities[id := StubOf(d)],
                   materialization := Emplace(s.materialization, id, DependencyStub));
      Naming(s2, DependencyName(d), id)
  }

  // ----- Functions and variables -----

  function RegisterParameter(p: Program, s: State, ownerId: Info, q: Refl, index: nat): Outcome
    requires WellFormed(p) && q in p.decls && p.decls[q].ParameterDecl?
  {
    assert DeclWellFormed(p, q);
    var s1 := EnsureType(p, EnsureType(p, s, p.decls[q].paramType), p.decls[q].decayedType);
    InsertUnique(s1, p.id[q], ParameterOf(p, q, ownerId, index))
  }

  /** Parameters from position k on; the first failure stops the rest. */
  function RegisterParameters(p: Program, s: State, owner: Refl, ps: seq<Refl>, k: nat): Outcome
    requires WellFormed(p) && owner in p.decls && k <= |ps|
    requires forall i | 0 <= i < |ps| :: IsParameterOf(p, owner, ps[i])
    decreases |ps| - k
  {
    if k == |ps| then Outcome(s, Success)
    else
      assert IsParameterOf(p, owner, ps[k]);
      var o := RegisterParameter(p, s, p.id[owner], ps[k], k);
      if o.error != Success then o else RegisterParameters(p, o.state, owner, ps, k + 1)
  }

  function RegisterSignature(p: Program, s: State, f: Refl): Outcome
    requires WellFormed(p) && f in p.decls && (p.decls[f].FreeFunction? || p.decls[f].FunctionDecl?)
  {
    assert DeclWellFormed(p, f);
    var sig := p.decls[f].signature;
    var s1 := if sig.returnType.Some? then EnsureType(p, s, sig.returnType.value) else s;
    RegisterParameters(p, s1, f, sig.parameters, 0)
  }

  function RegisterFreeFunction(p: Program, s: State, f: Refl): Outcome
    requires WellFormed(p) && f in p.decls && p.decls[f].FreeFunction?
  {
    var o := RegisterSignature(p, s, f);
    if o.error != Success then o
    else
      var o1 := InsertUnique(o.state, p.id[f], FunctionOf(p, f));
      if o1.error != Success then o1
      else
        var s1 := Naming(o1.state, p.decls[f].display, p.id[f]);
        Outcome(Naming(s1, p.decls[f].identifier, p.id[f]), Success)
  }

  function RegisterVariable(p: Program, s: State, v: Refl): Outcome
    requires WellFormed(p) && v in p.decls && p.decls[v].GlobalVariable?
  {
    assert DeclWellFormed(p, v);
    var o := InsertUnique(EnsureType(p, s, p.decls[v].varType), p.id[v], VariableOf(p, v));
    if o.error != Success then o
    else
      var s1 := Naming(o.state, p.decls[v].display, p.id[v]);
      Outcome(Naming(s1, p.decls[v].identifier, p.id[v]), Success)
  }

  // ----- Enums -----

  function RegisterEnumerators(p: Program, s: State, e: Refl, k: nat): Outcome
    requires WellFormed(p) && e in p.decls && p.decls[e].EnumType?
    requires k <= |p.decls[e].enumerators|
    decreases |p.decls[e].enumerators| - k
  {
    assert DeclWellFormed(p, e);
    var xs := p.decls[e].enumerators;
    if k == |xs| then Outcome(s, Success)
    else
      assert IsEnumeratorOf(p, e, xs[k]);
      var o := InsertUnique(s, p.id[xs[k]], EnumeratorOf(p, xs[k]));
      if o.error != Success then o else RegisterEnumerators(p, o.state, e, k + 1)
  }

  function RegisterEnum(p: Program, s: State, e: Refl): Outcome
    requires WellFormed(p) && e in p.decls && p.decls[e].EnumType?
  {
    assert DeclWellFormed(p, e);
    var d, id := p.decls[e], p.id[e];
    var s1 := EnsureType(p, s, e);
    if !s1.entities[id].EnumEntity? then Outcome(s1, UncaughtBadVariantAccess)
    else
      var s2 := EnsureType(p, s1, d.underlying);
      var s3 := s2.(entities := s2.entities[id := WithEnumerators(p, s2.entities[id], e)]);
      var o := RegisterEnumerators(p, s3, e, 0);
      if o.error != Success then o else Outcome(Naming(o.state, d.display, id), Success)
  }

  // ----- Classes -----

  /** The member entity itself, after any signature it has; a nested type is only listed. */
  function RegisterMember(p: Program, s: State, c: Refl, m: Refl): Outcome
    requires WellFormed(p) && IsMemberOf(p, c, m)
  {
    var d := p.decls[m];
    assert DeclWellFormed(p, m);
    match d
    case DataMemberDecl(_, _, _, _, _, memberType) =>
      InsertUnique(EnsureType(p, s, memberType), p.id[m], DataMemberOf(p, m))
    case FunctionDecl(_, _, _, _, kind, _, _, _) =>
      var o := if kind.Destructor? then Outcome(s, Success) else RegisterSignature(p, s, m);
      if o.error != Success then o else InsertUnique(o.state, p.id[m], FunctionOf(p, m))
    case _ => Outcome(s, Success)
  }

  datatype ClassOutcome = ClassOutcome(state: State, error: Error, lists: MemberLists)

  function RegisterMembers(p: Program, s: State, c: Refl, k: nat, lists: MemberLists): ClassOutcome
    requires WellFormed(p) && c in p.decls && p.decls[c].ClassType?
    requires k <= |p.decls[c].members|
    decreases |p.decls[c].members| - k
  {
    assert DeclWellFormed(p, c);
    var ms := p.decls[c].members;
    if k == |ms| then ClassOutcome(s, Success, lists)
    else
      assert IsMemberOf(p, c, ms[k]);
      var m := MemberOf(p, ms[k]);
      if !Included(m) then RegisterMembers(p, s, c, k + 1, lists)
      else
        var o := RegisterMember(p, s, c, ms[k]);
        if o.error != Success then ClassOutcome(o.state, o.error, lists)
        else RegisterMembers(p, o.state, c, k + 1, AfterMember(lists, m))
  }

  /** Bases from position k on.  The base class itself is registered first. */
  function RegisterBases(p: Program, s: State, c: Refl, k: nat, lists: MemberLists): ClassOutcome
    requires WellFormed(p) && c in p.decls && p.decls[c].ClassType?
    requires k <= |p.decls[c].bases|
    decreases p.rank[c], 1, |p.decls[c].bases| - k
  {
    assert DeclWellFormed(p, c);
    var bs := p.decls[c].bases;
    if k == |bs| then ClassOutcome(s, Success, lists)
    else
      assert IsBaseOf(p, c, bs[k]) && DeclWellFormed(p, bs[k]);
      var baseType := p.decls[bs[k]].baseType;
      var o := RegisterEntity(p, s, baseType);
      if o.error != Success then ClassOutcome(o.state, o.error, lists)
      else
        var o1 := InsertUnique(EnsureType(p, o.state, baseType), p.id[bs[k]], BaseOf(p, bs[k]));
        if o1.error != Success then ClassOutcome(o1.state, o1.error, lists)
        else RegisterBases(p, o1.state, c, k + 1, lists.(bases := lists.bases + [p.id[bs[k]]]))
  }

  function RegisterClass(p: Program, s: State, c: Refl): Outcome
    requires WellFormed(p) && c in p.decls && p.decls[c].ClassType?
    decreases p.rank[c], 2
  {
    var d, id := p.decls[c], p.id[c];
    var o := RegisterBases(p, EnsureType(p, s, c), c, 0, NO_MEMBERS);
    if o.error != Success then Outcome(o.state, o.error)
    else
      var o1 := RegisterMembers(p, o.state, c, 0, o.lists);
      if o1.error != Success then Outcome(o1.state, o1.error)
      else
        var s2 := o1.state.(entities := o1.state.entities[id := ClassEntity(d.display, d.attributes, o1.lists)]);
        Outcome(Naming(s2, d.display, id), Success)
  }

  /** The branch of register_entity that the entity's kind selects. */
  function Dispatch(p: Program, s: State, r: Refl): Outcome
    requires WellFormed(p) && IsTopLevel(p, r)
    decreases p.rank[r], 3
  {
    match p.decls[r]
    case FreeFunction(_, _, _) => RegisterFreeFunction(p, s, r)
    case GlobalVariable(_, _, _) => RegisterVariable(p, s, r)
    case ClassType(_, _, _, _, _) => RegisterClass(p, s, r)
    case EnumType(_, _, _, _, _) => RegisterEnum(p, s, r)
    case _ => Outcome(EnsureType(p, s, r), Success)
  }

  /** register_entity.  An exception skips the bookkeeping after the dispatch. */
  function RegisterEntity(p: Program, s: State, r: Refl): Outcome
    requires WellFormed(p) && IsTopLevel(p, r)
    decreases p.rank[r], 4
  {
    var id := p.id[r];
    if s.frozen then Outcome(s, RegistryFrozen)
    else if IsFull(s, id) then Outcome(s, Success)
    else if id in s.registering then Outcome(s, Success)
    else
      var o := Dispatch(p, s.(registering := s.registering + {id}), r);
      if o.error == UncaughtBadVariantAccess then o
      else
        var s2 := o.state.(registering := o.state.registering - {id});
        if o.error == Success then Outcome(MarkFull(s2, id), Success) else Outcome(s2, o.error)
  }

  // ----- Queries -----

  /** Every query freezes the registry. */
  function Freeze(s: State): State {
    s.(frozen := true)
  }

  function IdByName(s: State, name: string): Info {
    if name in s.names then s.names[name] else INVALID_INFO
  }

  // ----- Runs -----

  datatype Call = Register(r: Refl) | Query

  ghost predicate Callable(p: Program, call: Call) {
    call.Register? ==> IsTopLevel(p, call.r)
  }

  function Step(p: Program, s: State, call: Call): Outcome
    requires WellFormed(p) && Callable(p, call)
  {
    match call
    case Register(r) => RegisterEntity(p, s, r)
    case Query => Outcome(Freeze(s), Success)
  }

  datatype RunOutcome = RunOutcome(state: State, replies: seq<Error>)

  /** The replies of a sequence of calls and the state they leave. */
  function Run(p: Program, s: State, calls: seq<Call>): (o: RunOutcome)
    requires WellFormed(p) && forall i | 0 <= i < |calls| :: Callable(p, calls[i])
    ensures |o.replies| == |calls|
  {
    if calls == [] then RunOutcome(s, [])
    else
      var last := |calls| - 1;
      var before := Run(p, s, calls[..last]);
      var o := Step(p, before.state, calls[last]);
      RunOutcome(o.state, before.replies + [o.error])
  }

  function Registrations(rs: seq<Refl>): (calls: seq<Call>)
    ensures |calls| == |rs| && forall i | 0 <= i < |rs| :: calls[i] == Register(rs[i])
  {
    seq(|rs|, i requires 0 <= i < |rs| => Register(rs[i]))
  }
}
