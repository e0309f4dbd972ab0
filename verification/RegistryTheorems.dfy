/** Whole-run results for the run-time registry. */
module RegistryTheorems {
  import opened Core
  import opened ClassMetadata
  import opened Entities
  import opened RegistrySpec
  import opened RegistryCanon
  import opened RegistryOrder
  import opened RegistryRuns

  // ----- Order independence -----

  ghost predicate AllTopLevel(p: Program, roots: set<Refl>) {
    forall r | r in roots :: IsTopLevel(p, r)
  }

  /** What a set of registered roots amounts to. */
  ghost function Reached(p: Program, roots: set<Refl>): Progress
    requires WellFormed(p) && AllTopLevel(p, roots)
  {
    Progress(set r, t | r in roots && t in Needs(p, r) :: t,
             set r, q | r in roots && q in Fulls(p, r) :: q,
             {}, {})
  }

  function Roots(rs: seq<Refl>): set<Refl> {
    set r | r in rs
  }

  ghost predicate AllSucceed(replies: seq<Error>) {
    forall i | 0 <= i < |replies| :: replies[i] == Success
  }

  lemma ReachedNone(p: Program)
    requires Sound(p)
    ensures Legal(p, Reached(p, {})) && Canon(p, Reached(p, {})) == EMPTY
  {
    var g := Reached(p, {});
    assert Present(p, g) == {};
    assert Filed(p, g.known, g.full) == {};
  }

  lemma ReachedMore(p: Program, roots: set<Refl>, r: Refl)
    requires Sound(p) && AllTopLevel(p, roots) && IsTopLevel(p, r)
    ensures Reached(p, roots + {r}) == End(p, Reached(p, roots), r)
  {
    var a, b := Reached(p, roots + {r}), End(p, Reached(p, roots), r);
    assert a.known == b.known;
    assert a.full == b.full;
  }

  lemma RunOneMore(p: Program, s: State, rs: seq<Refl>)
    requires WellFormed(p) && AllTopLevel(p, Roots(rs)) && rs != []
    ensures AllTopLevel(p, Roots(rs[..|rs| - 1])) && IsTopLevel(p, rs[|rs| - 1])
    ensures var before := Run(p, s, Registrations(rs[..|rs| - 1]));
            var o := RegisterEntity(p, before.state, rs[|rs| - 1]);
            Run(p, s, Registrations(rs)) == RunOutcome(o.state, before.replies + [o.error])
  {
    assert rs[|rs| - 1] in Roots(rs);
    assert Registrations(rs)[..|rs| - 1] == Registrations(rs[..|rs| - 1]);
  }

  lemma ReachedStep(p: Program, roots: set<Refl>, r: Refl)
    requires Sound(p) && AllTopLevel(p, roots) && IsTopLevel(p, r) && Legal(p, Reached(p, roots))
    ensures AllTopLevel(p, roots + {r}) && Legal(p, Reached(p, roots + {r}))
    ensures RegisterEntity(p, Canon(p, Reached(p, roots)), r)
            == Outcome(Canon(p, Reached(p, roots + {r})), Success)
  {
    RegisterStep(p, Reached(p, roots), r);
    ReachedMore(p, roots, r);
  }

  lemma RunStep(p: Program, s: State, rs: seq<Refl>, s1: State)
    requires WellFormed(p) && AllTopLevel(p, Roots(rs)) && rs != []
    requires AllTopLevel(p, Roots(rs[..|rs| - 1])) && IsTopLevel(p, rs[|rs| - 1])
    requires AllSucceed(Run(p, s, Registrations(rs[..|rs| - 1])).replies)
    requires RegisterEntity(p, Run(p, s, Registrations(rs[..|rs| - 1])).state, rs[|rs| - 1]) == Outcome(s1, Success)
    ensures Run(p, s, Registrations(rs)).state == s1
    ensures AllSucceed(Run(p, s, Registrations(rs)).replies)
  {
    RunOneMore(p, s, rs);
  }

  lemma RootsSplit(p: Program, rs: seq<Refl>)
    requires rs != [] && AllTopLevel(p, Roots(rs))
    ensures Roots(rs) == Roots(rs[..|rs| - 1]) + {rs[|rs| - 1]}
    ensures AllTopLevel(p, Roots(rs[..|rs| - 1])) && IsTopLevel(p, rs[|rs| - 1])
  {
    assert rs[|rs| - 1] in Roots(rs);
  }

  /** A run of registrations always succeeds and ends in the closed form of the
      set of entities registered. */
  lemma {:induction false} RunIsCanonical(p: Program, rs: seq<Refl>)
    requires Sound(p) && AllTopLevel(p, Roots(rs))
    ensures Legal(p, Reached(p, Roots(rs)))
    ensures Run(p, EMPTY, Registrations(rs)).state == Canon(p, Reached(p, Roots(rs)))
    ensures AllSucceed(Run(p, EMPTY, Registrations(rs)).replies)
  {
    if rs == [] {
      ReachedNone(p);
      assert Roots(rs) == {};
      assert Run(p, EMPTY, Registrations(rs)) == RunOutcome(EMPTY, []);
    } else {
      var front, r := rs[..|rs| - 1], rs[|rs| - 1];
      RootsSplit(p, rs);
      RunIsCanonical(p, front);
      ReachedStep(p, Roots(front), r);
      RunStep(p, EMPTY, rs, Canon(p, Reached(p, Roots(rs))));
    }
  }

  /** Registering the same entities in any order, with any repeats, succeeds every
      time and leaves the same entity map, materialization map and name table. */
  lemma RegistrationOrderIndependent(p: Program, rs: seq<Refl>, ts: seq<Refl>)
    requires Sound(p) && AllTopLevel(p, Roots(rs)) && Roots(rs) == Roots(ts)
    ensures Run(p, EMPTY, Registrations(rs)).state == Run(p, EMPTY, Registrations(ts)).state
    ensures AllSucceed(Run(p, EMPTY, Registrations(rs)).replies)
    ensures AllSucceed(Run(p, EMPTY, Registrations(ts)).replies)
    ensures Run(p, EMPTY, Registrations(rs)).state.registering == {}
  {
    RunIsCanonical(p, rs);
    RunIsCanonical(p, ts);
  }

  /** A name answers with an id exactly when every filing of it was for that entity. */
  lemma NameAnswers(p: Program, rs: seq<Refl>, name: string, r: Refl)
    requires Sound(p) && AllTopLevel(p, Roots(rs)) && r in p.decls && p.id[r] != INVALID_INFO
    ensures var g := Reached(p, Roots(rs));
            && (forall q | q in g.known + g.full :: q in p.decls)
            && (IdByName(Run(p, EMPTY, Registrations(rs)).state, name) == p.id[r]
                <==> BearersOf(Filed(p, g.known, g.full), name) == {r})
  {
    RunIsCanonical(p, rs);
    var g := Reached(p, Roots(rs));
    var filed := Filed(p, g.known, g.full);
    FiledIn(p, g.known, g.full);
    var bearers := BearersOf(filed, name);
    if bearers == {r} {
      assert IsLone(bearers, r);
      assert r in bearers;
      var a :| a in filed && a.0 == name && a.1 == r;
      assert name in NamesIn(filed);
    }
    if q :| IsLone(bearers, q) {
      assert q in bearers;
      assert p.id[r] == p.id[q] ==> r == q;
    }
  }

  // ----- Freezing -----

  /** Once frozen, a registry never changes and refuses every registration. */
  lemma {:induction false} FrozenForGood(p: Program, s: State, calls: seq<Call>)
    requires WellFormed(p) && s.frozen && forall i | 0 <= i < |calls| :: Callable(p, calls[i])
    ensures Run(p, s, calls).state == s
    ensures forall i | 0 <= i < |calls| && calls[i].Register? :: Run(p, s, calls).replies[i] == RegistryFrozen
  {
    if calls != [] {
      FrozenForGood(p, s, calls[..|calls| - 1]);
    }
  }

  /** The last call of a run. */
  lemma RunLast(p: Program, s: State, calls: seq<Call>, front: seq<Call>, c: Call)
    requires WellFormed(p) && calls == front + [c] && forall i | 0 <= i < |calls| :: Callable(p, calls[i])
    ensures forall i | 0 <= i < |front| :: Callable(p, front[i])
    ensures Callable(p, c)
    ensures var before := Run(p, s, front); var o := Step(p, before.state, c);
            Run(p, s, calls) == RunOutcome(o.state, before.replies + [o.error])
  {
    assert forall i | 0 <= i < |front| :: front[i] == calls[i];
    assert calls[..|calls| - 1] == front && calls[|calls| - 1] == c;
  }

  lemma {:induction false} RunJoins(p: Program, s: State, a: seq<Call>, b: seq<Call>, mid: RunOutcome)
    requires WellFormed(p) && forall i | 0 <= i < |a + b| :: Callable(p, (a + b)[i])
    requires forall i | 0 <= i < |a| :: Callable(p, a[i])
    requires forall i | 0 <= i < |b| :: Callable(p, b[i])
    requires mid == Run(p, s, a)
    ensures var o := Run(p, mid.state, b); Run(p, s, a + b) == RunOutcome(o.state, mid.replies + o.replies)
    decreases |b|
  {
    if b == [] {
      assert a + b == a;
    } else {
      var front, last := b[..|b| - 1], b[|b| - 1];
      RunLast(p, s, a + b, a + front, last);
      RunLast(p, mid.state, b, front, last);
      RunJoins(p, s, a, front, mid);
    }
  }

  lemma RunSplits(p: Program, s: State, a: seq<Call>, b: seq<Call>)
    requires WellFormed(p)
    requires forall i | 0 <= i < |a| :: Callable(p, a[i])
    requires forall i | 0 <= i < |b| :: Callable(p, b[i])
    ensures forall i | 0 <= i < |a + b| :: Callable(p, (a + b)[i])
    ensures Run(p, s, a + b).state == Run(p, Run(p, s, a).state, b).state
    ensures Run(p, s, a + b).replies == Run(p, s, a).replies + Run(p, Run(p, s, a).state, b).replies
  {
    RunJoins(p, s, a, b, Run(p, s, a));
  }

  lemma RunQuery(p: Program, s: State)
    requires WellFormed(p)
    ensures Run(p, s, [Query]) == RunOutcome(Freeze(s), [Success])
  {
    assert [Query][..0] == [];
  }

  lemma QueryStops(p: Program, s: State, calls: seq<Call>)
    requires WellFormed(p) && (forall i | 0 <= i < |calls| :: Callable(p, calls[i]))
    ensures Run(p, s, calls + [Query]).state == Freeze(Run(p, s, calls).state)
    ensures |Run(p, s, calls + [Query]).replies| == |calls| + 1
  {
    RunSplits(p, s, calls, [Query]);
    RunQuery(p, Run(p, s, calls).state);
  }

  /** Any calls, a query, then anything: the state never changes again and every
      later registration is refused. */
  lemma AfterQuery(p: Program, s: State, earlier: seq<Call>, later: seq<Call>)
    requires WellFormed(p)
    requires forall i | 0 <= i < |earlier| :: Callable(p, earlier[i])
    requires forall i | 0 <= i < |later| :: Callable(p, later[i])
    ensures forall i | 0 <= i < |earlier + [Query] + later| :: Callable(p, (earlier + [Query] + later)[i])
    ensures var o := Run(p, s, earlier + [Query] + later);
            && o.state == Freeze(Run(p, s, earlier).state)
            && forall i | 0 <= i < |later| && later[i].Register? :: o.replies[|earlier| + 1 + i] == RegistryFrozen
  {
    QueryStops(p, s, earlier);
    RunSplits(p, s, earlier + [Query], later);
    FrozenForGood(p, Freeze(Run(p, s, earlier).state), later);
  }

  /** Registrations, a first query, then anything: the answers are those of the
      registrations alone, and every later registration is refused. */
  lemma FirstQueryFixesAnswers(p: Program, rs: seq<Refl>, later: seq<Call>)
    requires Sound(p) && AllTopLevel(p, Roots(rs)) && forall i | 0 <= i < |later| :: Callable(p, later[i])
    ensures Legal(p, Reached(p, Roots(rs)))
    ensures forall i | 0 <= i < |Registrations(rs) + [Query] + later| ::
              Callable(p, (Registrations(rs) + [Query] + later)[i])
    ensures Run(p, EMPTY, Registrations(rs) + [Query] + later).state == Freeze(Canon(p, Reached(p, Roots(rs))))
  {
    RunIsCanonical(p, rs);
    forall i | 0 <= i < |rs| ensures IsTopLevel(p, rs[i]) {
      assert rs[i] in Roots(rs);
    }
    AfterQuery(p, EMPTY, Registrations(rs), later);
  }

  // ----- Referential closure -----

  ghost predicate TypeStored(s: State, id: Info) {
    id in s.entities && (s.entities[id].TypeEntity? || s.entities[id].ClassEntity? || s.entities[id].EnumEntity?)
  }

  ghost predicate ClassLists(s: State, classId: Info, pick: MemberLists -> seq<Info>, id: Info) {
    classId in s.entities && s.entities[classId].ClassEntity? && id in pick(s.entities[classId].lists)
  }

  ghost predicate MemberOfClass(s: State, id: Info, classId: Info) {
    && id in s.entities
    && ((s.entities[id].DataMemberEntity? && s.entities[id].parentId == classId)
        || (s.entities[id].FunctionEntity? && s.entities[id].parentId == classId))
  }

  ghost predicate ParametersResolve(s: State, id: Info, ids: seq<Info>) {
    forall i | 0 <= i < |ids| ::
      ids[i] in s.entities && s.entities[ids[i]].ParameterEntity?
      && s.entities[ids[i]].parentId == id && s.entities[ids[i]].index == i
  }

  /** Every id an entity stores, other than a class's member list, resolves to an
      entity of the right kind that refers back to it. */
  ghost predicate ReferencesResolve(s: State, id: Info)
    requires id in s.entities
  {
    match s.entities[id]
    case TypeEntity(_, _, underlying) => underlying == INVALID_INFO || TypeStored(s, underlying)
    case EnumEntity(_, _, underlying, entries) =>
      && (underlying == INVALID_INFO || TypeStored(s, underlying))
      && forall i | 0 <= i < |entries| :: EnumeratorResolves(s, id, entries[i].entityId)
    case VariableEntity(_, _, typeId) => TypeStored(s, typeId)
    case DataMemberEntity(_, _, _, typeId, parentId) =>
      TypeStored(s, typeId) && ClassLists(s, parentId, (l: MemberLists) => l.members, id)
    case FunctionEntity(_, _, flags, parentId, returnTypeId, parameterIds) =>
      && (returnTypeId == INVALID_INFO || TypeStored(s, returnTypeId))
      && ParametersResolve(s, id, parameterIds)
      && (flags.isMember ==> ClassLists(s, parentId, (l: MemberLists) => l.members, id))
    case ParameterEntity(_, _, typeId, decayedTypeId, parentId, index) =>
      && TypeStored(s, typeId) && TypeStored(s, decayedTypeId)
      && parentId in s.entities && s.entities[parentId].FunctionEntity?
      && index < |s.entities[parentId].parameterIds| && s.entities[parentId].parameterIds[index] == id
    case EnumeratorEntity(_, _, _, _, parentId) =>
      && parentId in s.entities && s.entities[parentId].EnumEntity?
      && exists i :: 0 <= i < |s.entities[parentId].entries| && s.entities[parentId].entries[i].entityId == id
    case BaseEntity(_, _, typeId, parentId, _, _, _) =>
      && typeId in s.entities && s.entities[typeId].ClassEntity?
      && ClassLists(s, parentId, (l: MemberLists) => l.bases, id)
    case ClassEntity(_, _, lists) => ClassListsResolve(s, id, lists)
  }

  ghost predicate EnumeratorResolves(s: State, enumId: Info, id: Info) {
    id in s.entities && s.entities[id].EnumeratorEntity? && s.entities[id].parentId == enumId
  }

  ghost predicate BaseResolves(s: State, classId: Info, id: Info) {
    id in s.entities && s.entities[id].BaseEntity? && s.entities[id].parentId == classId
  }

  ghost predicate KindResolves(s: State, classId: Info, kind: MemberKind, id: Info) {
    && MemberOfClass(s, id, classId)
    && match s.entities[id]
       case DataMemberEntity(_, _, isStatic, _, _) => if isStatic then kind.StaticData? else kind.NonstaticData?
       case FunctionEntity(_, _, flags, _, _, _) =>
         (kind.Constructor? <==> flags.isConstructor) && (kind.Destructor? <==> flags.isDestructor)
         && (kind.Constructor? || kind.Destructor? || kind.MemberFunction?)
       case _ => false
  }

  ghost predicate KindListClosed(s: State, id: Info, kind: MemberKind, ids: seq<Info>) {
    forall m | m in ids :: KindResolves(s, id, kind, m)
  }

  ghost predicate BasesClosed(s: State, id: Info, ids: seq<Info>) {
    forall b | b in ids :: BaseResolves(s, id, b)
  }

  ghost predicate ClassListsResolve(s: State, id: Info, lists: MemberLists) {
    && BasesClosed(s, id, lists.bases)
    && KindListClosed(s, id, NonstaticData, lists.nonstaticData)
    && KindListClosed(s, id, StaticData, lists.staticData)
    && KindListClosed(s, id, Constructor, lists.constructors)
    && KindListClosed(s, id, MemberFunction, lists.functions)
    && (lists.destructor == INVALID_INFO || KindResolves(s, id, Destructor, lists.destructor))
  }

  /** How a present reflection got there. */
  lemma WhyPresent(p: Program, g: Progress, r: Refl)
    requires Sound(p) && Legal(p, g) && g.extra == {} && r in Present(p, g)
    ensures IsTopLevel(p, r) ==> r in g.known + g.full
    ensures !IsTopLevel(p, r) ==> TopOwner(p, r) in g.full && r in Children(p, TopOwner(p, r))
  {
    if r in ChildrenOfAll(p, g.full) {
      var q :| q in g.full && r in Children(p, q);
      ChildrenOwned(p, q, r);
    }
  }

  lemma Stored(p: Program, g: Progress, r: Refl)
    requires Sound(p) && Legal(p, g) && r in Present(p, g)
    ensures p.id[r] in Canon(p, g).entities && Canon(p, g).entities[p.id[r]] == EntityOf(p, r, r in g.full)
  {
    EntityPromote(p, Present(p, g), g.full, r);
  }

  lemma KnownTypeStored(p: Program, g: Progress, t: Refl)
    requires Sound(p) && Legal(p, g) && t in g.known
    ensures TypeStored(Canon(p, g), p.id[t])
  {
    Stored(p, g, t);
  }

  lemma ChildPresent(p: Program, g: Progress, r: Refl, x: Refl)
    requires Sound(p) && Legal(p, g) && r in g.full && x in Children(p, r)
    ensures x in Present(p, g)
  {
  }

  lemma {:induction false} MemberWhich(p: Program, c: Refl, k: nat, x: Refl) returns (j: nat)
    requires WellFormed(p) && c in p.decls && p.decls[c].ClassType? && k <= |p.decls[c].members|
    requires x in MembersEntities(p, c, k)
    ensures j < k && x in MemberEntities(p, c, MemberAt(p, c, j))
  {
    if x in MemberEntities(p, c, MemberAt(p, c, k - 1)) {
      j := k - 1;
    } else {
      j := MemberWhich(p, c, k - 1, x);
    }
  }

  lemma MemberNeedsListed(p: Program, c: Refl, j: nat, k: nat)
    requires WellFormed(p) && c in p.decls && p.decls[c].ClassType? && j < k <= |p.decls[c].members|
    ensures MemberNeeds(p, c, MemberAt(p, c, j)) <= MembersNeeds(p, c, k)
  {
  }

  lemma ClassNeedsKnown(p: Program, g: Progress, c: Refl)
    requires Sound(p) && Legal(p, g) && c in g.full && p.decls[c].ClassType?
    ensures MembersNeeds(p, c, |p.decls[c].members|) <= g.known
  {
  }

  lemma {:induction false} ParameterNeedsListed(p: Program, ps: seq<Refl>, j: nat, k: nat)
    requires WellFormed(p) && j < k <= |ps|
    requires forall i | 0 <= i < |ps| :: ps[i] in p.decls && p.decls[ps[i]].ParameterDecl?
    ensures DeclWellFormed(p, ps[j])
    ensures p.decls[ps[j]].paramType in ParameterNeeds(p, ps, k)
    ensures p.decls[ps[j]].decayedType in ParameterNeeds(p, ps, k)
  {
    assert DeclWellFormed(p, ps[j]) && DeclWellFormed(p, ps[k - 1]);
    if j < k - 1 {
      ParameterNeedsListed(p, ps, j, k - 1);
    }
  }

  /** A child of a fully registered class is one of its bases or belongs to one
      of its included members, whose types are known. */
  lemma ClassChild(p: Program, g: Progress, c: Refl, x: Refl) returns (j: nat)
    requires Sound(p) && Legal(p, g) && c in g.full && p.decls[c].ClassType?
    requires x in Children(p, c) && x in p.decls && !p.decls[x].BaseDecl?
    ensures j < |p.decls[c].members| && x in MemberEntities(p, c, MemberAt(p, c, j))
    ensures MemberNeeds(p, c, MemberAt(p, c, j)) <= g.known
  {
    BasesAreBases(p, c);
    ClassNeedsKnown(p, g, c);
    j := MemberWhich(p, c, |p.decls[c].members|, x);
    ClassNeedsKnown(p, g, c);
    MemberNeedsListed(p, c, j, |p.decls[c].members|);
  }

  lemma IncludedMemberStored(p: Program, g: Progress, c: Refl, j: nat)
    requires Sound(p) && Legal(p, g) && c in g.full && p.decls[c].ClassType? && j < |p.decls[c].members|
    requires Included(MemberOf(p, MemberAt(p, c, j))) && !IsType(p, MemberAt(p, c, j))
    ensures MemberAt(p, c, j) in Present(p, g)
  {
    var m := MemberAt(p, c, j);
    assert m in MemberEntities(p, c, m);
    MemberEntityListed(p, c, j, |p.decls[c].members|, m);
    ChildPresent(p, g, c, m);
  }

  /** The class entity of a completed class lists every included member. */
  lemma MemberListed(p: Program, g: Progress, c: Refl, j: nat)
    requires Sound(p) && Legal(p, g) && c in g.full && p.decls[c].ClassType? && j < |p.decls[c].members|
    requires Included(MemberOf(p, MemberAt(p, c, j)))
    ensures ClassLists(Canon(p, g), p.id[c], (l: MemberLists) => l.members, p.id[MemberAt(p, c, j)])
  {
    Stored(p, g, c);
    var ms := MembersOf(p, c);
    PickElements(ms, Included, IdOf);
    assert ms[j] == MemberOf(p, MemberAt(p, c, j));
  }

  lemma DataMemberReferences(s: State, id: Info)
    requires id in s.entities && s.entities[id].DataMemberEntity? && TypeStored(s, s.entities[id].typeId)
    requires ClassLists(s, s.entities[id].parentId, (l: MemberLists) => l.members, id)
    ensures ReferencesResolve(s, id)
  {
  }

  lemma DataMemberResolves(p: Program, g: Progress, m: Refl)
    requires Sound(p) && Legal(p, g) && g.extra == {} && m in Present(p, g) && p.decls[m].DataMemberDecl?
    ensures p.id[m] in Canon(p, g).entities && ReferencesResolve(Canon(p, g), p.id[m])
  {
    Stored(p, g, m);
    DataMemberEntityOf(p, m, m in g.full);
    DataMemberPlace(p, g, m);
    DataMemberNeeds(p, g, m);
    DataMemberReferences(Canon(p, g), p.id[m]);
  }

  lemma DataMemberPlace(p: Program, g: Progress, m: Refl)
    requires Sound(p) && Legal(p, g) && g.extra == {} && m in Present(p, g) && p.decls[m].DataMemberDecl?
    ensures TopOwner(p, m) in g.full && m in Children(p, TopOwner(p, m)) && p.decls[TopOwner(p, m)].ClassType?
  {
    WhyPresent(p, g, m);
    OnlyClassesHaveMembers(p, TopOwner(p, m), m);
  }

  lemma DataMemberEntityOf(p: Program, m: Refl, full: bool)
    requires WellFormed(p) && m in p.decls && p.decls[m].DataMemberDecl?
    ensures p.decls[m].memberType in p.id && TopOwner(p, m) in p.id
    ensures EntityOf(p, m, full) == DataMemberEntity(p.decls[m].identifier, p.decls[m].display, p.decls[m].isStatic,
                                                     p.id[p.decls[m].memberType], p.id[TopOwner(p, m)])
  {
    assert DeclWellFormed(p, m);
  }

  lemma DataMemberNeeds(p: Program, g: Progress, m: Refl)
    requires Sound(p) && Legal(p, g) && m in p.decls && p.decls[m].DataMemberDecl?
    requires TopOwner(p, m) in g.full && m in Children(p, TopOwner(p, m)) && p.decls[TopOwner(p, m)].ClassType?
    ensures p.decls[m].memberType in p.id && TypeStored(Canon(p, g), p.id[p.decls[m].memberType])
    ensures ClassLists(Canon(p, g), p.id[TopOwner(p, m)], (l: MemberLists) => l.members, p.id[m])
  {
    assert DeclWellFormed(p, m);
    var c := TopOwner(p, m);
    var j := ClassChild(p, g, c, m);
    MemberEntityOwner(p, c, MemberAt(p, c, j), m);
    KnownTypeStored(p, g, p.decls[m].memberType);
    MemberListed(p, g, c, j);
  }

  lemma MemberFunctionNeeds(p: Program, g: Progress, f: Refl) returns (c: Refl, j: nat)
    requires Sound(p) && Legal(p, g) && g.extra == {} && f in Present(p, g)
    requires p.decls[f].FunctionDecl?
    ensures c in g.full && p.decls[c].ClassType? && j < |p.decls[c].members| && f == MemberAt(p, c, j)
    ensures p.decls[f].owner == c && Included(MemberOf(p, f))
    ensures !p.decls[f].kind.Destructor? ==> SignatureNeeds(p, f) <= g.known
  {
    WhyPresent(p, g, f);
    c := TopOwner(p, f);
    if !p.decls[c].ClassType? {
      OnlyClassesHaveMembers(p, c, f);
    }
    j := ClassChild(p, g, c, f);
    MemberEntityOwner(p, c, MemberAt(p, c, j), f);
  }

  lemma FreeFunctionChildren(p: Program, f: Refl)
    requires Sound(p) && f in p.decls && p.decls[f].FreeFunction?
    ensures forall x | x in Children(p, f) :: IsParameterOf(p, f, x)
  {
    var ps := ParametersOf(p, f);
    assert forall i | 0 <= i < |ps| :: IsParameterOf(p, f, ps[i]);
  }

  lemma OnlyClassesHaveMembers(p: Program, r: Refl, x: Refl)
    requires Sound(p) && IsTopLevel(p, r) && x in Children(p, r)
    requires x in p.decls && (p.decls[x].FunctionDecl? || p.decls[x].DataMemberDecl? || p.decls[x].BaseDecl?)
    ensures p.decls[r].ClassType?
  {
    if p.decls[r].FreeFunction? {
      FreeFunctionChildren(p, r);
    } else if !p.decls[r].ClassType? {
      EnumChildren(p, r, x);
    }
  }

  lemma ParametersPresent(p: Program, g: Progress, f: Refl)
    requires Sound(p) && Legal(p, g) && g.extra == {} && f in Present(p, g)
    requires p.decls[f].FreeFunction? || (p.decls[f].FunctionDecl? && !p.decls[f].kind.Destructor?)
    ensures forall q | q in ParametersOf(p, f) :: q in Present(p, g)
  {
    var ps := ParametersOf(p, f);
    forall q | q in ps ensures q in Present(p, g) {
      assert q in Elements(ps, |ps|);
      if p.decls[f].FreeFunction? {
        WhyPresent(p, g, f);
        ChildPresent(p, g, f, q);
      } else {
        var c, j := MemberFunctionNeeds(p, g, f);
        MemberEntityListed(p, c, j, |p.decls[c].members|, q);
        ChildPresent(p, g, c, q);
      }
    }
  }

  /** Every type in a stored function's signature is known. */
  lemma FunctionNeedsKnown(p: Program, g: Progress, f: Refl)
    requires Sound(p) && Legal(p, g) && g.extra == {} && f in Present(p, g)
    requires p.decls[f].FreeFunction? || (p.decls[f].FunctionDecl? && !p.decls[f].kind.Destructor?)
    ensures SignatureNeeds(p, f) <= g.known
  {
    if p.decls[f].FreeFunction? {
      WhyPresent(p, g, f);
    } else {
      var c, j := MemberFunctionNeeds(p, g, f);
    }
  }

  lemma ReturnTypeResolves(p: Program, g: Progress, f: Refl)
    requires Sound(p) && Legal(p, g) && f in p.decls && (p.decls[f].FreeFunction? || p.decls[f].FunctionDecl?)
    requires SignatureNeeds(p, f) <= g.known
    ensures var ret := p.decls[f].signature.returnType;
            ret.Some? ==> ret.value in p.id && TypeStored(Canon(p, g), p.id[ret.value])
  {
    assert DeclWellFormed(p, f);
    var ret := p.decls[f].signature.returnType;
    if ret.Some? {
      KnownTypeStored(p, g, ret.value);
    }
  }

  lemma ParameterEntityAt(p: Program, f: Refl, i: nat, full: bool)
    requires Sound(p) && f in p.decls && (p.decls[f].FreeFunction? || p.decls[f].FunctionDecl?)
    requires i < |ParametersOf(p, f)|
    ensures EntityOf(p, ParametersOf(p, f)[i], full) == ParameterOf(p, ParametersOf(p, f)[i], p.id[f], i)
  {
    ParametersDistinct(p, f);
    PositionOfDistinct(ParametersOf(p, f), i);
  }

  lemma ParameterStored(p: Program, g: Progress, f: Refl, i: nat)
    requires Sound(p) && Legal(p, g) && f in p.decls && (p.decls[f].FreeFunction? || p.decls[f].FunctionDecl?)
    requires i < |ParametersOf(p, f)| && ParametersOf(p, f)[i] in Present(p, g)
    ensures var q := ParametersOf(p, f)[i];
            p.id[q] in Canon(p, g).entities
            && Canon(p, g).entities[p.id[q]] == ParameterOf(p, q, p.id[f], i)
  {
    var q := ParametersOf(p, f)[i];
    Stored(p, g, q);
    ParameterEntityAt(p, f, i, q in g.full);
  }

  lemma ParameterListResolves(p: Program, g: Progress, f: Refl)
    requires Sound(p) && Legal(p, g) && f in p.decls && (p.decls[f].FreeFunction? || p.decls[f].FunctionDecl?)
    requires forall q | q in ParametersOf(p, f) :: q in Present(p, g)
    ensures ParametersResolve(Canon(p, g), p.id[f], IdsOf(p, ParametersOf(p, f)))
  {
    var ps := ParametersOf(p, f);
    var ids := IdsOf(p, ps);
    forall i | 0 <= i < |ids|
      ensures ids[i] in Canon(p, g).entities && Canon(p, g).entities[ids[i]] == ParameterOf(p, ps[i], p.id[f], i)
    {
      assert ps[i] in ps;
      ParameterStored(p, g, f, i);
    }
  }

  lemma FreeFunctionResolves(p: Program, g: Progress, f: Refl)
    requires Sound(p) && Legal(p, g) && g.extra == {} && f in Present(p, g) && p.decls[f].FreeFunction?
    ensures p.id[f] in Canon(p, g).entities && ReferencesResolve(Canon(p, g), p.id[f])
  {
    Stored(p, g, f);
    ParametersPresent(p, g, f);
    FunctionNeedsKnown(p, g, f);
    ReturnTypeResolves(p, g, f);
    ParameterListResolves(p, g, f);
  }

  lemma MemberFunctionResolves(p: Program, g: Progress, f: Refl)
    requires Sound(p) && Legal(p, g) && g.extra == {} && f in Present(p, g) && p.decls[f].FunctionDecl?
    ensures p.id[f] in Canon(p, g).entities && ReferencesResolve(Canon(p, g), p.id[f])
  {
    assert DeclWellFormed(p, f);
    Stored(p, g, f);
    var c, j := MemberFunctionNeeds(p, g, f);
    MemberListed(p, g, c, j);
    if !p.decls[f].kind.Destructor? {
      ParametersPresent(p, g, f);
      ReturnTypeResolves(p, g, f);
      ParameterListResolves(p, g, f);
    }
  }

  lemma ParameterTypesKnown(p: Program, g: Progress, f: Refl, i: nat)
    requires Sound(p) && Legal(p, g) && f in p.decls && (p.decls[f].FreeFunction? || p.decls[f].FunctionDecl?)
    requires SignatureNeeds(p, f) <= g.known && i < |ParametersOf(p, f)|
    ensures var q := ParametersOf(p, f)[i];
            p.decls[q].paramType in g.known && p.decls[q].decayedType in g.known
  {
    var ps := ParametersOf(p, f);
    ParameterNeedsListed(p, ps, i, |ps|);
  }

  lemma FunctionStored(p: Program, g: Progress, f: Refl)
    requires Sound(p) && Legal(p, g) && f in Present(p, g)
    requires p.decls[f].FreeFunction? || (p.decls[f].FunctionDecl? && !p.decls[f].kind.Destructor?)
    ensures p.id[f] in Canon(p, g).entities && Canon(p, g).entities[p.id[f]].FunctionEntity?
    ensures Canon(p, g).entities[p.id[f]].parameterIds == IdsOf(p, ParametersOf(p, f))
  {
    Stored(p, g, f);
    assert DeclWellFormed(p, f);
  }

  lemma ParameterTypes(p: Program, g: Progress, f: Refl, i: nat)
    requires Sound(p) && Legal(p, g) && g.extra == {} && f in Present(p, g)
    requires p.decls[f].FreeFunction? || (p.decls[f].FunctionDecl? && !p.decls[f].kind.Destructor?)
    requires i < |ParametersOf(p, f)|
    ensures var d := p.decls[ParametersOf(p, f)[i]];
            d.paramType in p.id && d.decayedType in p.id
            && TypeStored(Canon(p, g), p.id[d.paramType]) && TypeStored(Canon(p, g), p.id[d.decayedType])
  {
    var q := ParametersOf(p, f)[i];
    FunctionNeedsKnown(p, g, f);
    ParameterTypesKnown(p, g, f, i);
    KnownTypeStored(p, g, p.decls[q].paramType);
    KnownTypeStored(p, g, p.decls[q].decayedType);
  }

  lemma ParameterResolves(p: Program, g: Progress, q: Refl)
    requires Sound(p) && Legal(p, g) && g.extra == {} && q in Present(p, g) && p.decls[q].ParameterDecl?
    ensures p.id[q] in Canon(p, g).entities && ReferencesResolve(Canon(p, g), p.id[q])
  {
    var f := ParameterFunction(p, g, q);
    var i :| 0 <= i < |ParametersOf(p, f)| && ParametersOf(p, f)[i] == q;
    ParameterTypes(p, g, f, i);
    FunctionStored(p, g, f);
    ParameterStored(p, g, f, i);
  }

  /** The stored function a stored parameter belongs to. */
  lemma ParameterFunction(p: Program, g: Progress, q: Refl) returns (f: Refl)
    requires Sound(p) && Legal(p, g) && g.extra == {} && q in Present(p, g) && p.decls[q].ParameterDecl?
    ensures f in Present(p, g) && f == p.decls[q].owner
    ensures p.decls[f].FreeFunction? || (p.decls[f].FunctionDecl? && !p.decls[f].kind.Destructor?)
    ensures q in ParametersOf(p, f)
  {
    WhyPresent(p, g, q);
    var r := TopOwner(p, q);
    if p.decls[r].FreeFunction? {
      f := r;
      var ps := ParametersOf(p, f);
      assert q in Elements(ps, |ps|);
    } else if p.decls[r].ClassType? {
      f := ParameterMember(p, g, r, q);
    } else {
      EnumChildren(p, r, q);
      assert false;
    }
  }

  /** The member function a parameter below a class belongs to. */
  lemma ParameterMember(p: Program, g: Progress, c: Refl, q: Refl) returns (f: Refl)
    requires Sound(p) && Legal(p, g) && c in g.full && p.decls[c].ClassType?
    requires q in Children(p, c) && q in p.decls && p.decls[q].ParameterDecl?
    ensures f in Present(p, g) && f == p.decls[q].owner
    ensures p.decls[f].FunctionDecl? && !p.decls[f].kind.Destructor? && q in ParametersOf(p, f)
  {
    var j := ClassChild(p, g, c, q);
    f := MemberAt(p, c, j);
    MemberEntityOwner(p, c, f, q);
    IncludedMemberStored(p, g, c, j);
    var ps := ParametersOf(p, f);
    assert q in Elements(ps, |ps|);
  }

  lemma EnumChildren(p: Program, e: Refl, x: Refl)
    requires Sound(p) && IsTopLevel(p, e) && x in Children(p, e)
    requires !p.decls[e].FreeFunction? && !p.decls[e].ClassType?
    ensures p.decls[e].EnumType? && IsEnumeratorOf(p, e, x) && x in p.decls[e].enumerators
  {
    assert DeclWellFormed(p, e);
    var xs := p.decls[e].enumerators;
    var i :| 0 <= i < |xs| && xs[i] == x;
    assert IsEnumeratorOf(p, e, xs[i]);
  }

  lemma TypeResolves(p: Program, g: Progress, t: Refl)
    requires Sound(p) && Legal(p, g) && t in Present(p, g) && p.decls[t].PlainType? && t in g.known
    ensures p.id[t] in Canon(p, g).entities && ReferencesResolve(Canon(p, g), p.id[t])
  {
    assert DeclWellFormed(p, t);
    Stored(p, g, t);
    if p.decls[t].target.Some? {
      assert p.decls[t].target.value in Chain(p, t);
      KnownTypeStored(p, g, p.decls[t].target.value);
    }
  }

  lemma EnumeratorPresent(p: Program, g: Progress, e: Refl, x: Refl)
    requires Sound(p) && Legal(p, g) && e in g.full && p.decls[e].EnumType? && x in p.decls[e].enumerators
    ensures IsEnumeratorOf(p, e, x) && x in Present(p, g)
  {
    var xs := p.decls[e].enumerators;
    assert DeclWellFormed(p, e);
    var i :| 0 <= i < |xs| && xs[i] == x;
    assert IsEnumeratorOf(p, e, xs[i]);
    assert x in Elements(xs, |xs|);
    ChildPresent(p, g, e, x);
  }

  lemma EnumeratorEntityOf(p: Program, x: Refl, full: bool)
    requires WellFormed(p) && x in p.decls && p.decls[x].EnumeratorDecl?
    ensures EntityOf(p, x, full) == EnumeratorOf(p, x)
    ensures EnumeratorOf(p, x).EnumeratorEntity? && EnumeratorOf(p, x).parentId == p.id[p.decls[x].owner]
  {
  }

  lemma EnumeratorStored(p: Program, g: Progress, e: Refl, x: Refl)
    requires Sound(p) && Legal(p, g) && e in g.full && p.decls[e].EnumType? && x in p.decls[e].enumerators
    ensures IsEnumeratorOf(p, e, x) && EnumeratorResolves(Canon(p, g), p.id[e], p.id[x])
  {
    EnumeratorPresent(p, g, e, x);
    Stored(p, g, x);
    EnumeratorEntityOf(p, x, x in g.full);
  }

  lemma EnumeratorsResolve(p: Program, g: Progress, e: Refl)
    requires Sound(p) && Legal(p, g) && e in g.full && p.decls[e].EnumType?
    ensures forall i | 0 <= i < |p.decls[e].enumerators| ::
              p.decls[e].enumerators[i] in p.id
              && EnumeratorResolves(Canon(p, g), p.id[e], p.id[p.decls[e].enumerators[i]])
  {
    assert DeclWellFormed(p, e);
    var xs := p.decls[e].enumerators;
    forall i | 0 <= i < |xs| ensures xs[i] in p.id && EnumeratorResolves(Canon(p, g), p.id[e], p.id[xs[i]]) {
      assert xs[i] in xs && IsEnumeratorOf(p, e, xs[i]);
      EnumeratorStored(p, g, e, xs[i]);
    }
  }

  lemma EnumResolves(p: Program, g: Progress, e: Refl)
    requires Sound(p) && Legal(p, g) && e in Present(p, g) && p.decls[e].EnumType?
    ensures p.id[e] in Canon(p, g).entities && ReferencesResolve(Canon(p, g), p.id[e])
  {
    assert DeclWellFormed(p, e);
    Stored(p, g, e);
    if e in g.full {
      assert p.decls[e].underlying in Needs(p, e);
      KnownTypeStored(p, g, p.decls[e].underlying);
      EnumeratorsResolve(p, g, e);
    }
  }

  lemma VariableResolves(p: Program, g: Progress, v: Refl)
    requires Sound(p) && Legal(p, g) && g.extra == {} && v in Present(p, g) && p.decls[v].GlobalVariable?
    ensures p.id[v] in Canon(p, g).entities && ReferencesResolve(Canon(p, g), p.id[v])
  {
    assert DeclWellFormed(p, v);
    Stored(p, g, v);
    WhyPresent(p, g, v);
    KnownTypeStored(p, g, p.decls[v].varType);
  }

  /** The completed enum that a stored enumerator belongs to. */
  lemma EnumeratorOwner(p: Program, g: Progress, x: Refl) returns (e: Refl)
    requires Sound(p) && Legal(p, g) && g.extra == {} && x in Present(p, g) && p.decls[x].EnumeratorDecl?
    ensures e in g.full && p.decls[e].EnumType? && IsEnumeratorOf(p, e, x) && x in p.decls[e].enumerators
  {
    WhyPresent(p, g, x);
    e := TopOwner(p, x);
    if p.decls[e].FreeFunction? {
      FreeFunctionChildren(p, e);
    } else if p.decls[e].ClassType? {
      var j := ClassChild(p, g, e, x);
      MemberEntityOwner(p, e, MemberAt(p, e, j), x);
    } else {
      EnumChildren(p, e, x);
    }
  }

  lemma EnumeratorReferences(s: State, enumId: Info, id: Info)
    requires EnumeratorResolves(s, enumId, id) && enumId in s.entities && s.entities[enumId].EnumEntity?
    requires exists i :: 0 <= i < |s.entities[enumId].entries| && s.entities[enumId].entries[i].entityId == id
    ensures ReferencesResolve(s, id)
  {
  }

  lemma EnumeratorEntityResolves(p: Program, g: Progress, x: Refl)
    requires Sound(p) && Legal(p, g) && g.extra == {} && x in Present(p, g) && p.decls[x].EnumeratorDecl?
    ensures p.id[x] in Canon(p, g).entities && ReferencesResolve(Canon(p, g), p.id[x])
  {
    var e := EnumeratorOwner(p, g, x);
    EnumeratorStored(p, g, e, x);
    EnumeratorListed(p, g, e, x);
    EnumeratorReferences(Canon(p, g), p.id[e], p.id[x]);
  }

  lemma EnumeratorListed(p: Program, g: Progress, e: Refl, x: Refl)
    requires Sound(p) && Legal(p, g) && e in g.full && p.decls[e].EnumType?
    requires x in p.decls[e].enumerators && x in p.decls
    ensures p.id[e] in Canon(p, g).entities && Canon(p, g).entities[p.id[e]].EnumEntity?
    ensures var entries := Canon(p, g).entities[p.id[e]].entries;
            exists i :: 0 <= i < |entries| && entries[i].entityId == p.id[x]
  {
    Stored(p, g, e);
    var xs := p.decls[e].enumerators;
    var i :| 0 <= i < |xs| && xs[i] == x;
    assert Canon(p, g).entities[p.id[e]].entries[i].entityId == p.id[x];
  }

  lemma BasePresent(p: Program, g: Progress, c: Refl, k: nat)
    requires Sound(p) && Legal(p, g) && c in g.full && p.decls[c].ClassType? && k < |p.decls[c].bases|
    ensures IsBaseOf(p, c, p.decls[c].bases[k]) && p.decls[c].bases[k] in Present(p, g)
  {
    var bs := p.decls[c].bases;
    assert DeclWellFormed(p, c);
    assert IsBaseOf(p, c, bs[k]);
    assert bs[k] in Elements(bs, |bs|);
    ChildPresent(p, g, c, bs[k]);
  }

  lemma BaseEntityOf(p: Program, b: Refl, full: bool)
    requires WellFormed(p) && b in p.decls && p.decls[b].BaseDecl?
    ensures EntityOf(p, b, full) == BaseOf(p, b)
    ensures BaseOf(p, b).BaseEntity? && BaseOf(p, b).parentId == p.id[p.decls[b].owner]
  {
  }

  lemma BaseStored(p: Program, g: Progress, c: Refl, k: nat)
    requires Sound(p) && Legal(p, g) && c in g.full && p.decls[c].ClassType? && k < |p.decls[c].bases|
    ensures IsBaseOf(p, c, p.decls[c].bases[k])
    ensures BaseResolves(Canon(p, g), p.id[c], p.id[p.decls[c].bases[k]])
  {
    BasePresent(p, g, c, k);
    Stored(p, g, p.decls[c].bases[k]);
    BaseEntityOf(p, p.decls[c].bases[k], p.decls[c].bases[k] in g.full);
  }

  lemma BaseListed(p: Program, g: Progress, c: Refl, k: nat)
    requires Sound(p) && Legal(p, g) && c in g.full && p.decls[c].ClassType? && k < |p.decls[c].bases|
    ensures p.decls[c].bases[k] in p.id
    ensures ClassLists(Canon(p, g), p.id[c], (l: MemberLists) => l.bases, p.id[p.decls[c].bases[k]])
  {
    assert DeclWellFormed(p, c);
    assert IsBaseOf(p, c, p.decls[c].bases[k]);
    FullClassStored(p, g, c);
    assert IdsOf(p, p.decls[c].bases)[k] == p.id[p.decls[c].bases[k]];
  }

  /** The class that lists a stored base, and where. */
  lemma BasePosition(p: Program, g: Progress, b: Refl) returns (c: Refl, k: nat)
    requires Sound(p) && Legal(p, g) && g.extra == {} && b in Present(p, g) && p.decls[b].BaseDecl?
    ensures c in g.full && c in p.decls && p.decls[c].ClassType? && p.decls[b].owner == c
    ensures k < |p.decls[c].bases| && p.decls[c].bases[k] == b
  {
    assert DeclWellFormed(p, b);
    WhyPresent(p, g, b);
    c := TopOwner(p, b);
    OnlyClassesHaveMembers(p, c, b);
    BasesOnly(p, c, b);
    k :| 0 <= k < |p.decls[c].bases| && p.decls[c].bases[k] == b;
  }

  lemma BaseReferences(s: State, id: Info)
    requires id in s.entities && s.entities[id].BaseEntity?
    requires s.entities[id].typeId in s.entities && s.entities[s.entities[id].typeId].ClassEntity?
    requires ClassLists(s, s.entities[id].parentId, (l: MemberLists) => l.bases, id)
    ensures ReferencesResolve(s, id)
  {
  }

  lemma BaseFields(p: Program, g: Progress, c: Refl, k: nat)
    requires Sound(p) && Legal(p, g) && c in p.decls && p.decls[c].ClassType? && k < |p.decls[c].bases|
    requires p.decls[c].bases[k] in Present(p, g) && IsBaseOf(p, c, p.decls[c].bases[k])
    ensures var s, id := Canon(p, g), p.id[p.decls[c].bases[k]];
            && id in s.entities && s.entities[id].BaseEntity?
            && s.entities[id].typeId == p.id[BaseTypeAt(p, c, k)] && s.entities[id].parentId == p.id[c]
  {
    Stored(p, g, p.decls[c].bases[k]);
    BaseEntityOf(p, p.decls[c].bases[k], p.decls[c].bases[k] in g.full);
  }

  lemma BaseEntityResolves(p: Program, g: Progress, b: Refl)
    requires Sound(p) && Legal(p, g) && g.extra == {} && b in Present(p, g) && p.decls[b].BaseDecl?
    ensures p.id[b] in Canon(p, g).entities && ReferencesResolve(Canon(p, g), p.id[b])
  {
    var c, k := BasePosition(p, g, b);
    BasePresent(p, g, c, k);
    BaseFields(p, g, c, k);
    BaseListed(p, g, c, k);
    BaseClassStored(p, g, c, k);
    BaseReferences(Canon(p, g), p.id[b]);
  }

  lemma BaseClassStored(p: Program, g: Progress, c: Refl, k: nat)
    requires Sound(p) && Legal(p, g) && c in g.full && p.decls[c].ClassType? && k < |p.decls[c].bases|
    ensures TypeStored(Canon(p, g), p.id[BaseTypeAt(p, c, k)])
    ensures Canon(p, g).entities[p.id[BaseTypeAt(p, c, k)]].ClassEntity?
  {
    assert BaseTypeAt(p, c, k) in BasesNeeds(p, c, |p.decls[c].bases|);
    KnownTypeStored(p, g, BaseTypeAt(p, c, k));
    Stored(p, g, BaseTypeAt(p, c, k));
  }

  lemma BasesOnly(p: Program, c: Refl, b: Refl)
    requires Sound(p) && c in p.decls && p.decls[c].ClassType? && b in Children(p, c)
    requires b in p.decls && p.decls[b].BaseDecl?
    ensures b in p.decls[c].bases
  {
    if b in MembersEntities(p, c, |p.decls[c].members|) {
      var j := MemberWhich(p, c, |p.decls[c].members|, b);
      MemberEntityOwner(p, c, MemberAt(p, c, j), b);
    }
  }

  // ----- The lists of a completed class -----

  lemma MemberOfKindStored(p: Program, g: Progress, c: Refl, j: nat)
    requires Sound(p) && Legal(p, g) && c in g.full && p.decls[c].ClassType? && j < |p.decls[c].members|
    requires Included(MemberOf(p, MemberAt(p, c, j))) && !IsType(p, MemberAt(p, c, j))
    ensures MemberOfClass(Canon(p, g), p.id[MemberAt(p, c, j)], p.id[c])
    ensures var m := MemberAt(p, c, j);
            Canon(p, g).entities[p.id[m]] == if p.decls[m].DataMemberDecl? then DataMemberOf(p, m) else FunctionOf(p, m)
  {
    IncludedMemberStored(p, g, c, j);
    Stored(p, g, MemberAt(p, c, j));
  }

  lemma KindListResolves(p: Program, g: Progress, c: Refl, kind: MemberKind)
    requires Sound(p) && Legal(p, g) && c in g.full && p.decls[c].ClassType? && !kind.NestedType?
    ensures KindListClosed(Canon(p, g), p.id[c], kind, IdsOfKind(MembersOf(p, c), kind))
  {
    var ms := MembersOf(p, c);
    PickElements(ms, m => OfKind(m, kind), IdOf);
    forall id | id in IdsOfKind(ms, kind) ensures KindResolves(Canon(p, g), p.id[c], kind, id) {
      var j :| 0 <= j < |ms| && OfKind(ms[j], kind) && ms[j].id == id;
      assert ms[j] == MemberOf(p, MemberAt(p, c, j));
      assert DeclWellFormed(p, MemberAt(p, c, j));
      MemberOfKindStored(p, g, c, j);
    }
  }

  lemma {:induction false} LastDestructorIs(ms: seq<Member>) returns (j: int)
    ensures LastDestructor(ms) != INVALID_INFO ==>
              0 <= j < |ms| && ms[j].kind.Destructor? && ms[j].id == LastDestructor(ms)
  {
    j := |ms| - 1;
    if ms != [] && !ms[j].kind.Destructor? {
      j := LastDestructorIs(ms[..|ms| - 1]);
    }
  }

  lemma DestructorResolves(p: Program, g: Progress, c: Refl)
    requires Sound(p) && Legal(p, g) && c in g.full && p.decls[c].ClassType?
    ensures var d := LastDestructor(MembersOf(p, c));
            d == INVALID_INFO || KindResolves(Canon(p, g), p.id[c], Destructor, d)
  {
    var ms := MembersOf(p, c);
    var j := LastDestructorIs(ms);
    if LastDestructor(ms) != INVALID_INFO {
      assert ms[j] == MemberOf(p, MemberAt(p, c, j));
      assert DeclWellFormed(p, MemberAt(p, c, j));
      MemberOfKindStored(p, g, c, j);
    }
  }

  lemma BaseIdsResolve(p: Program, g: Progress, c: Refl)
    requires Sound(p) && Legal(p, g) && c in g.full && p.decls[c].ClassType?
    ensures forall i | 0 <= i < |p.decls[c].bases| :: p.decls[c].bases[i] in p.decls
    ensures BasesClosed(Canon(p, g), p.id[c], IdsOf(p, p.decls[c].bases))
  {
    assert DeclWellFormed(p, c);
    var bs := p.decls[c].bases;
    assert forall i | 0 <= i < |bs| :: IsBaseOf(p, c, bs[i]);
    var ids := IdsOf(p, bs);
    forall b | b in ids ensures BaseResolves(Canon(p, g), p.id[c], b) {
      var k :| 0 <= k < |ids| && ids[k] == b;
      BaseStored(p, g, c, k);
    }
  }

  lemma StubResolves(p: Program, g: Progress, c: Refl)
    requires Sound(p) && Legal(p, g) && c in Present(p, g) && p.decls[c].ClassType? && c !in g.full
    ensures p.id[c] in Canon(p, g).entities && ReferencesResolve(Canon(p, g), p.id[c])
  {
    Stored(p, g, c);
  }

  lemma FullClassStored(p: Program, g: Progress, c: Refl)
    requires Sound(p) && Legal(p, g) && c in g.full && p.decls[c].ClassType?
    ensures p.id[c] in Canon(p, g).entities
    ensures Canon(p, g).entities[p.id[c]] == FullClass(p, c)
  {
    Stored(p, g, c);
  }

  lemma ClassResolves(p: Program, g: Progress, c: Refl)
    requires Sound(p) && Legal(p, g) && c in g.full && p.decls[c].ClassType?
    ensures p.id[c] in Canon(p, g).entities && ReferencesResolve(Canon(p, g), p.id[c])
  {
    FullClassStored(p, g, c);
    BaseIdsResolve(p, g, c);
    KindListResolves(p, g, c, NonstaticData);
    KindListResolves(p, g, c, StaticData);
    KindListResolves(p, g, c, Constructor);
    KindListResolves(p, g, c, MemberFunction);
    DestructorResolves(p, g, c);
  }

  lemma EverythingResolves(p: Program, g: Progress, r: Refl)
    requires Sound(p) && Legal(p, g) && g.extra == {} && r in Present(p, g)
    ensures p.id[r] in Canon(p, g).entities && ReferencesResolve(Canon(p, g), p.id[r])
  {
    match p.decls[r]
    case PlainType(_, _, _, _, _) =>
      WhyPresent(p, g, r);
      TypeResolves(p, g, r);
    case ClassType(_, _, _, _, _) =>
      if r in g.full { ClassResolves(p, g, r); } else { StubResolves(p, g, r); }
    case EnumType(_, _, _, _, _) => EnumResolves(p, g, r);
    case FreeFunction(_, _, _) => FreeFunctionResolves(p, g, r);
    case FunctionDecl(_, _, _, _, _, _, _, _) => MemberFunctionResolves(p, g, r);
    case GlobalVariable(_, _, _) => VariableResolves(p, g, r);
    case BaseDecl(_, _, _, _, _, _) => BaseEntityResolves(p, g, r);
    case DataMemberDecl(_, _, _, _, _, _) => DataMemberResolves(p, g, r);
    case ParameterDecl(_, _, _, _, _) => ParameterResolves(p, g, r);
    case EnumeratorDecl(_, _, _, _, _) => EnumeratorEntityResolves(p, g, r);
  }

  /** After any run of registrations every stored id resolves to an entity of the
      right kind, and children and parents refer to each other.  The one list this
      does not cover is a class's member list, see MemberListResolves. */
  lemma RunsAreClosed(p: Program, rs: seq<Refl>, id: Info)
    requires Sound(p) && AllTopLevel(p, Roots(rs))
    requires id in Run(p, EMPTY, Registrations(rs)).state.entities
    ensures ReferencesResolve(Run(p, EMPTY, Registrations(rs)).state, id)
  {
    RunIsCanonical(p, rs);
    var g := Reached(p, Roots(rs));
    assert id in Images(p, Present(p, g));
    var r :| r in Present(p, g) && p.id[r] == id;
    EverythingResolves(p, g, r);
  }

  /** An annotated type declared inside a class is put on its member list but is
      never stored on its account. */
  ghost predicate NestedTypesKnown(p: Program, g: Progress, c: Refl)
    requires WellFormed(p) && c in p.decls && p.decls[c].ClassType?
  {
    forall j | 0 <= j < |p.decls[c].members|
               && IsType(p, MemberAt(p, c, j)) && Included(MemberOf(p, MemberAt(p, c, j))) ::
      MemberAt(p, c, j) in g.known
  }

  lemma ListedMemberStored(p: Program, g: Progress, c: Refl, j: nat)
    requires Sound(p) && Legal(p, g) && c in g.full && p.decls[c].ClassType? && j < |p.decls[c].members|
    requires Included(MemberOf(p, MemberAt(p, c, j)))
    ensures p.id[MemberAt(p, c, j)] in Canon(p, g).entities
            <==> (IsType(p, MemberAt(p, c, j)) ==> MemberAt(p, c, j) in g.known)
  {
    if IsType(p, MemberAt(p, c, j)) {
      EnsureKnown(p, g, MemberAt(p, c, j));
    } else {
      MemberOfKindStored(p, g, c, j);
    }
  }

  lemma MemberIds(p: Program, c: Refl)
    requires Sound(p) && c in p.decls && p.decls[c].ClassType?
    ensures FullClass(p, c).ClassEntity?
    ensures forall j | 0 <= j < |p.decls[c].members| && Included(MemberOf(p, MemberAt(p, c, j))) ::
              p.id[MemberAt(p, c, j)] in FullClass(p, c).lists.members
    ensures forall id | id in FullClass(p, c).lists.members ::
              exists j :: 0 <= j < |p.decls[c].members| && Included(MemberOf(p, MemberAt(p, c, j)))
                          && p.id[MemberAt(p, c, j)] == id
  {
    var ms := MembersOf(p, c);
    PickElements(ms, Included, IdOf);
    assert forall j | 0 <= j < |ms| ::
        ms[j] == MemberOf(p, MemberAt(p, c, j)) && IdOf(ms[j]) == p.id[MemberAt(p, c, j)];
  }

  /** Every id on a registered class's member list resolves if and only if its
      annotated nested types have been registered or needed elsewhere. */
  lemma MemberListResolves(p: Program, g: Progress, c: Refl)
    requires Sound(p) && Legal(p, g) && c in g.full && p.decls[c].ClassType?
    ensures p.id[c] in Canon(p, g).entities && Canon(p, g).entities[p.id[c]] == FullClass(p, c)
    ensures FullClass(p, c).ClassEntity?
    ensures (forall id | id in FullClass(p, c).lists.members :: id in Canon(p, g).entities)
            <==> NestedTypesKnown(p, g, c)
  {
    FullClassStored(p, g, c);
    MemberIds(p, c);
    var members := FullClass(p, c).lists.members;
    if NestedTypesKnown(p, g, c) {
      forall id | id in members ensures id in Canon(p, g).entities {
        var j :| 0 <= j < |p.decls[c].members| && Included(MemberOf(p, MemberAt(p, c, j)))
                 && p.id[MemberAt(p, c, j)] == id;
        ListedMemberStored(p, g, c, j);
      }
    } else {
      var j :| 0 <= j < |p.decls[c].members| && IsType(p, MemberAt(p, c, j))
               && Included(MemberOf(p, MemberAt(p, c, j))) && MemberAt(p, c, j) !in g.known;
      ListedMemberStored(p, g, c, j);
      assert p.id[MemberAt(p, c, j)] in members;
    }
  }

  /** struct Outer { struct [[reflectable]] Inner {}; }; with any two distinct ids. */
  function NestedExample(outerId: Info, innerId: Info): Program {
    var attributes := TypeAttributes(1, 1, 0, 0);
    Program(map[1 := ClassType("Outer", "Outer", attributes, [], [2]),
                2 := ClassType("Outer::Inner", "Outer::Inner", attributes, [], [])],
            map[1 := outerId, 2 := innerId], map[1 := 0, 2 := 0], map[2 := Some("Inner")])
  }

  /** The facts about the example that the argument uses. */
  ghost predicate NestedShape(p: Program, outerId: Info, innerId: Info) {
    && Sound(p)
    && 1 in p.decls && 2 in p.decls && p.id[1] == outerId && p.id[2] == innerId
    && p.decls[1].ClassType? && |p.decls[1].members| == 1 && MemberAt(p, 1, 0) == 2
    && IsType(p, 2) && Included(MemberOf(p, 2))
    && 1 in Reached(p, {1}).full && 2 !in Reached(p, {1}).known
  }

  lemma NestedSound(outerId: Info, innerId: Info)
    requires outerId != innerId
    ensures Sound(NestedExample(outerId, innerId))
    ensures var p := NestedExample(outerId, innerId);
            MemberAt(p, 1, 0) == 2 && IsType(p, 2) && Included(MemberOf(p, 2))
  {
    var p := NestedExample(outerId, innerId);
    assert DeclWellFormed(p, 1) && DeclWellFormed(p, 2);
    assert MemberAt(p, 1, 0) == p.decls[1].members[0];
  }

  lemma NestedHasShape(outerId: Info, innerId: Info)
    requires outerId != innerId
    ensures NestedShape(NestedExample(outerId, innerId), outerId, innerId)
  {
    NestedSound(outerId, innerId);
    var p := NestedExample(outerId, innerId);
    assert MembersNeeds(p, 1, 1) == MembersNeeds(p, 1, 0) + MemberNeeds(p, 1, MemberAt(p, 1, 0));
    assert Needs(p, 1) == {1};
    assert Fulls(p, 1) == {1};
    assert Reached(p, {1}).known == {1};
    assert Reached(p, {1}).full == {1};
  }

  /** After registering rs, the class lists a member id that resolves to nothing. */
  ghost predicate Dangles(p: Program, rs: seq<Refl>, classId: Info, memberId: Info) {
    && Sound(p) && AllTopLevel(p, Roots(rs))
    && var s := Run(p, EMPTY, Registrations(rs)).state;
       classId in s.entities && s.entities[classId].ClassEntity?
       && memberId in s.entities[classId].lists.members && memberId !in s.entities
  }

  /** An annotated nested type nobody else needs is listed but not stored. */
  lemma UnknownNestedType(p: Program, rs: seq<Refl>, c: Refl, j: nat)
    requires Sound(p) && AllTopLevel(p, Roots(rs))
    requires c in Reached(p, Roots(rs)).full && p.decls[c].ClassType? && j < |p.decls[c].members|
    requires IsType(p, MemberAt(p, c, j)) && Included(MemberOf(p, MemberAt(p, c, j)))
    requires MemberAt(p, c, j) !in Reached(p, Roots(rs)).known
    ensures Dangles(p, rs, p.id[c], p.id[MemberAt(p, c, j)])
  {
    RunIsCanonical(p, rs);
    FullClassStored(p, Reached(p, Roots(rs)), c);
    EnsureKnown(p, Reached(p, Roots(rs)), MemberAt(p, c, j));
    MemberIds(p, c);
  }

  lemma ShapeDangles(p: Program, outerId: Info, innerId: Info, rs: seq<Refl>)
    requires NestedShape(p, outerId, innerId) && Roots(rs) == {1}
    ensures Dangles(p, rs, outerId, innerId)
  {
    UnknownNestedType(p, rs, 1, 0);
  }

  /** Registering only the outer class, however often, leaves a member id that
      resolves to nothing. */
  lemma NestedTypeDangles(outerId: Info, innerId: Info, rs: seq<Refl>)
    requires outerId != innerId && Roots(rs) == {1}
    ensures Dangles(NestedExample(outerId, innerId), rs, outerId, innerId)
  {
    NestedHasShape(outerId, innerId);
    ShapeDangles(NestedExample(outerId, innerId), outerId, innerId, rs);
  }
}
