/** A closed form for the registry: the tables as a function of which types are
    known, which entities are fully registered and which registrations are under
    way.  The order of calls does not appear in it. */
module RegistryCanon {
  import opened Core
  import opened ClassMetadata
  import opened Entities
  import opened RegistrySpec

  /** known: types stored at least as stubs; full: completed registrations other
      than plain types; extra: children inserted for registrations under way;
      busy: those registrations. */
  datatype Progress = Progress(known: set<Refl>, full: set<Refl>, extra: set<Refl>, busy: set<Refl>)

  // ----- What a declaration drags in -----

  /** A type and the types it points to, refers to or has as elements. */
  function Chain(p: Program, t: Refl): (ts: set<Refl>)
    requires WellFormed(p) && IsType(p, t)
    ensures t in ts && forall u | u in ts :: IsType(p, u)
    decreases p.rank[t]
  {
    assert DeclWellFormed(p, t);
    if p.decls[t].PlainType? && p.decls[t].target.Some?
    then {t} + Chain(p, p.decls[t].target.value)
    else {t}
  }

  function ParameterNeeds(p: Program, ps: seq<Refl>, k: nat): (ts: set<Refl>)
    requires WellFormed(p) && k <= |ps|
    requires forall i | 0 <= i < |ps| :: ps[i] in p.decls && p.decls[ps[i]].ParameterDecl?
    ensures forall u | u in ts :: IsType(p, u)
  {
    if k == 0 then {}
    else
      assert DeclWellFormed(p, ps[k - 1]);
      ParameterNeeds(p, ps, k - 1) + Chain(p, p.decls[ps[k - 1]].paramType)
        + Chain(p, p.decls[ps[k - 1]].decayedType)
  }

  function SignatureNeeds(p: Program, f: Refl): (ts: set<Refl>)
    requires WellFormed(p) && f in p.decls && (p.decls[f].FreeFunction? || p.decls[f].FunctionDecl?)
    ensures forall u | u in ts :: IsType(p, u)
  {
    assert DeclWellFormed(p, f);
    var sig := p.decls[f].signature;
    assert forall i | 0 <= i < |sig.parameters| :: IsParameterOf(p, f, sig.parameters[i]);
    (if sig.returnType.Some? then Chain(p, sig.returnType.value) else {})
      + ParameterNeeds(p, sig.parameters, |sig.parameters|)
  }

  function MemberNeeds(p: Program, c: Refl, m: Refl): set<Refl>
    requires WellFormed(p) && IsMemberOf(p, c, m)
  {
    assert DeclWellFormed(p, m);
    var d := p.decls[m];
    if !Included(MemberOf(p, m)) then {}
    else if d.DataMemberDecl? then Chain(p, d.memberType)
    else if d.FunctionDecl? && !d.kind.Destructor? then SignatureNeeds(p, m)
    else {}
  }

  function MembersNeeds(p: Program, c: Refl, k: nat): set<Refl>
    requires WellFormed(p) && c in p.decls && p.decls[c].ClassType? && k <= |p.decls[c].members|
  {
    assert DeclWellFormed(p, c);
    set i, u | 0 <= i < k && u in MemberNeeds(p, c, p.decls[c].members[i]) :: u
  }

  function BaseTypeAt(p: Program, c: Refl, k: nat): (b: Refl)
    requires WellFormed(p) && c in p.decls && p.decls[c].ClassType? && k < |p.decls[c].bases|
    ensures b in p.decls && p.decls[b].ClassType? && p.rank[b] < p.rank[c]
  {
    assert DeclWellFormed(p, c) && IsBaseOf(p, c, p.decls[c].bases[k]) && DeclWellFormed(p, p.decls[c].bases[k]);
    p.decls[p.decls[c].bases[k]].baseType
  }

  function BasesNeeds(p: Program, c: Refl, k: nat): (ts: set<Refl>)
    requires WellFormed(p) && c in p.decls && p.decls[c].ClassType? && k <= |p.decls[c].bases|
    ensures forall u | u in ts :: IsType(p, u)
    ensures forall j | 0 <= j < k :: BaseTypeAt(p, c, j) in ts
    decreases p.rank[c], 0, k
  {
    if k == 0 then {} else BasesNeeds(p, c, k - 1) + Needs(p, BaseTypeAt(p, c, k - 1))
  }

  /** Every type that registering r makes known. */
  function Needs(p: Program, r: Refl): (ts: set<Refl>)
    requires WellFormed(p) && IsTopLevel(p, r)
    ensures forall u | u in ts :: IsType(p, u)
    ensures IsType(p, r) ==> r in ts
    decreases p.rank[r], 1
  {
    assert DeclWellFormed(p, r);
    var d := p.decls[r];
    if d.FreeFunction? then SignatureNeeds(p, r)
    else if d.GlobalVariable? then Chain(p, d.varType)
    else if d.EnumType? then {r} + Chain(p, d.underlying)
    else if d.ClassType? then
      {r} + BasesNeeds(p, r, |d.bases|) + MembersNeeds(p, r, |d.members|)
    else Chain(p, r)
  }

  function BasesFulls(p: Program, c: Refl, k: nat): (rs: set<Refl>)
    requires WellFormed(p) && c in p.decls && p.decls[c].ClassType? && k <= |p.decls[c].bases|
    ensures forall u | u in rs :: IsTopLevel(p, u) && !p.decls[u].PlainType?
    ensures forall j | 0 <= j < k :: BaseTypeAt(p, c, j) in rs
    decreases p.rank[c], 0, k
  {
    if k == 0 then {} else BasesFulls(p, c, k - 1) + Fulls(p, BaseTypeAt(p, c, k - 1))
  }

  /** Every registration that registering r completes: itself and its base classes. */
  function Fulls(p: Program, r: Refl): (rs: set<Refl>)
    requires WellFormed(p) && IsTopLevel(p, r)
    ensures forall u | u in rs :: IsTopLevel(p, u) && !p.decls[u].PlainType?
    ensures !p.decls[r].PlainType? ==> r in rs
    decreases p.rank[r], 1
  {
    var d := p.decls[r];
    if d.PlainType? then {}
    else if d.ClassType? then {r} + BasesFulls(p, r, |d.bases|)
    else {r}
  }

  // ----- Children -----

  function Elements(rs: seq<Refl>, k: nat): set<Refl>
    requires k <= |rs|
  {
    set i | 0 <= i < k :: rs[i]
  }

  /** The entities one class member contributes. */
  function MemberEntities(p: Program, c: Refl, m: Refl): set<Refl>
    requires WellFormed(p) && IsMemberOf(p, c, m)
  {
    var d := p.decls[m];
    if !Included(MemberOf(p, m)) then {}
    else if d.DataMemberDecl? then {m}
    else if d.FunctionDecl? then
      {m} + if d.kind.Destructor? then {} else Elements(d.signature.parameters, |d.signature.parameters|)
    else {}
  }

  function MembersEntities(p: Program, c: Refl, k: nat): set<Refl>
    requires WellFormed(p) && c in p.decls && p.decls[c].ClassType? && k <= |p.decls[c].members|
  {
    if k == 0 then {}
    else
      assert DeclWellFormed(p, c) && IsMemberOf(p, c, p.decls[c].members[k - 1]);
      MembersEntities(p, c, k - 1) + MemberEntities(p, c, p.decls[c].members[k - 1])
  }

  /** The entities that registering r stores besides types and r itself. */
  function Children(p: Program, r: Refl): set<Refl>
    requires WellFormed(p) && IsTopLevel(p, r)
  {
    var d := p.decls[r];
    match d
    case FreeFunction(_, _, sig) => Elements(sig.parameters, |sig.parameters|)
    case EnumType(_, _, _, _, enumerators) => Elements(enumerators, |enumerators|)
    case ClassType(_, _, _, bases, members) =>
      Elements(bases, |bases|) + MembersEntities(p, r, |members|)
    case _ => {}
  }

  predicate IsChild(p: Program, x: Refl) {
    x in p.decls && !IsTopLevel(p, x)
  }

  /** The top-level declaration a child was stored for. */
  function TopOwner(p: Program, x: Refl): Refl
    requires WellFormed(p) && IsChild(p, x)
  {
    assert DeclWellFormed(p, x);
    var o := p.decls[x].owner;
    if p.decls[x].ParameterDecl? && p.decls[o].FunctionDecl? then p.decls[o].owner else o
  }

  lemma {:induction false} MembersEntitiesOwned(p: Program, c: Refl, k: nat, x: Refl)
    requires WellFormed(p) && c in p.decls && p.decls[c].ClassType? && k <= |p.decls[c].members|
    requires x in MembersEntities(p, c, k)
    ensures IsChild(p, x) && TopOwner(p, x) == c
  {
    var m := p.decls[c].members[k - 1];
    assert DeclWellFormed(p, c) && IsMemberOf(p, c, m) && DeclWellFormed(p, m);
    if x in MemberEntities(p, c, m) {
      if x != m {
        var ps := p.decls[m].signature.parameters;
        var i :| 0 <= i < |ps| && ps[i] == x;
        assert IsParameterOf(p, m, ps[i]);
      }
    } else {
      MembersEntitiesOwned(p, c, k - 1, x);
    }
  }

  lemma ChildrenOwned(p: Program, r: Refl, x: Refl)
    requires WellFormed(p) && IsTopLevel(p, r) && x in Children(p, r)
    ensures IsChild(p, x) && TopOwner(p, x) == r
  {
    assert DeclWellFormed(p, r);
    var d := p.decls[r];
    match d
    case FreeFunction(_, _, sig) =>
      var i :| 0 <= i < |sig.parameters| && sig.parameters[i] == x;
      assert IsParameterOf(p, r, sig.parameters[i]);
    case EnumType(_, _, _, _, enumerators) =>
      var i :| 0 <= i < |enumerators| && enumerators[i] == x;
      assert IsEnumeratorOf(p, r, enumerators[i]);
    case ClassType(_, _, _, bases, members) =>
      if x in Elements(bases, |bases|) {
        var i :| 0 <= i < |bases| && bases[i] == x;
        assert IsBaseOf(p, r, bases[i]);
      } else {
        MembersEntitiesOwned(p, r, |members|, x);
      }
    case _ =>
  }

  // ----- The closed form of each table -----

  function Images(p: Program, rs: set<Refl>): set<Info>
    requires WellFormed(p) && forall r | r in rs :: r in p.decls
  {
    set r | r in rs :: p.id[r]
  }

  ghost function ReflOf(p: Program, id: Info): (r: Refl)
    requires WellFormed(p) && exists r :: r in p.decls && p.id[r] == id
    ensures r in p.decls && p.id[r] == id
  {
    var r :| r in p.decls && p.id[r] == id; r
  }

  function PositionOf(rs: seq<Refl>, r: Refl): (i: nat)
    ensures r in rs ==> i < |rs| && rs[i] == r
  {
    if rs == [] || rs[0] == r then 0 else 1 + PositionOf(rs[1..], r)
  }

  /** The entity stored for r; only classes and enums change on completion. */
  function EntityOf(p: Program, r: Refl, full: bool): Entity
    requires WellFormed(p) && r in p.decls
  {
    assert DeclWellFormed(p, r);
    var d := p.decls[r];
    match d
    case PlainType(_, _, _, _, _) => PlainEntity(p, r)
    case ClassType(_, _, _, _, _) => if full then FullClass(p, r) else ClassStub(d)
    case EnumType(_, _, _, _, _) => if full then WithEnumerators(p, EnumStub(d), r) else EnumStub(d)
    case FreeFunction(_, _, _) => FunctionOf(p, r)
    case FunctionDecl(_, _, _, _, _, _, _, _) => FunctionOf(p, r)
    case GlobalVariable(_, _, _) => VariableOf(p, r)
    case BaseDecl(_, _, _, _, _, _) => BaseOf(p, r)
    case DataMemberDecl(_, _, _, _, _, _) => DataMemberOf(p, r)
    case ParameterDecl(owner, _, _, _, _) =>
      var o := p.decls[owner];
      ParameterOf(p, r, p.id[owner],
                  if o.FreeFunction? || o.FunctionDecl? then PositionOf(o.signature.parameters, r) else 0)
    case EnumeratorDecl(_, _, _, _, _) => EnumeratorOf(p, r)
  }

  ghost function EntityTable(p: Program, present: set<Refl>, full: set<Refl>): map<Info, Entity>
    requires WellFormed(p) && forall r | r in present :: r in p.decls
  {
    map id | id in Images(p, present) :: EntityOf(p, ReflOf(p, id), ReflOf(p, id) in full)
  }

  ghost function MaterializationTable(p: Program, known: set<Refl>, full: set<Refl>): map<Info, Materialization>
    requires WellFormed(p) && forall r | r in known + full :: r in p.decls
  {
    map id | id in Images(p, known + full) ::
      if p.decls[ReflOf(p, id)].PlainType? || ReflOf(p, id) in full then FullyMaterialized else DependencyStub
  }

  /** The names filed when a registration completes. */
  function CompletionNames(d: Decl): set<string> {
    match d
    case FreeFunction(identifier, display, _) => {identifier, display}
    case GlobalVariable(identifier, display, _) => {identifier, display}
    case ClassType(display, _, _, _, _) => {display}
    case EnumType(display, _, _, _, _) => {display}
    case _ => {}
  }

  function Pairs(names: set<string>, r: Refl): set<(string, Refl)> {
    set n | n in names && n != "" :: (n, r)
  }

  /** Every (name, entity) pair that has been filed. */
  function Filed(p: Program, known: set<Refl>, full: set<Refl>): set<(string, Refl)>
    requires forall r | r in known + full :: r in p.decls
  {
    (set t, a | t in known && a in Pairs({DependencyName(p.decls[t])}, t) :: a)
    + (set r, a | r in full && a in Pairs(CompletionNames(p.decls[r]), r) :: a)
  }

  function BearersOf(filed: set<(string, Refl)>, name: string): set<Refl> {
    set a | a in filed && a.0 == name :: a.1
  }

  function NamesIn(filed: set<(string, Refl)>): set<string> {
    set a | a in filed :: a.0
  }

  ghost predicate IsLone(bearers: set<Refl>, r: Refl) {
    bearers == {r}
  }

  /** A name filed for one entity maps to its id, a shared one to the invalid id. */
  ghost function Resolve(p: Program, bearers: set<Refl>): (id: Info)
    requires WellFormed(p) && forall r | r in bearers :: r in p.decls
    ensures forall r | IsLone(bearers, r) :: r in bearers && id == p.id[r]
    ensures (forall r :: !IsLone(bearers, r)) ==> id == INVALID_INFO
  {
    if r :| IsLone(bearers, r) then
      assert r in bearers;
      assert forall q | IsLone(bearers, q) :: q in bearers;
      p.id[r]
    else INVALID_INFO
  }

  ghost function NameTable(p: Program, filed: set<(string, Refl)>): map<string, Info>
    requires WellFormed(p) && forall a | a in filed :: a.1 in p.decls
  {
    map n | n in NamesIn(filed) :: Resolve(p, BearersOf(filed, n))
  }

  ghost predicate Legal(p: Program, g: Progress)
    requires WellFormed(p)
  {
    && (forall t | t in g.known :: IsType(p, t) && Chain(p, t) <= g.known)
    && (forall r | r in g.full :: IsTopLevel(p, r) && !p.decls[r].PlainType?
                                  && Needs(p, r) <= g.known && Fulls(p, r) <= g.full)
    && (forall x | x in g.extra :: IsChild(p, x) && TopOwner(p, x) in g.busy)
    && (forall r | r in g.busy :: r in p.decls)
    && g.full !! g.busy
  }

  ghost function ChildrenOfAll(p: Program, rs: set<Refl>): set<Refl>
    requires WellFormed(p) && forall r | r in rs :: IsTopLevel(p, r)
  {
    set r, x | r in rs && x in Children(p, r) :: x
  }

  /** Everything stored. */
  ghost function Present(p: Program, g: Progress): (rs: set<Refl>)
    requires WellFormed(p) && Legal(p, g)
    ensures forall r | r in rs :: r in p.decls
  {
    forall r, x | r in g.full && x in Children(p, r)
      ensures x in p.decls
    {
      ChildrenOwned(p, r, x);
    }
    g.known + g.full + ChildrenOfAll(p, g.full) + g.extra
  }

  ghost function Canon(p: Program, g: Progress): State
    requires WellFormed(p) && Legal(p, g)
  {
    State(EntityTable(p, Present(p, g), g.full),
          NameTable(p, Filed(p, g.known, g.full)),
          MaterializationTable(p, g.known, g.full),
          Images(p, g.busy),
          false)
  }
}
