/** What registering any entity does to the closed form, and what follows for
    whole runs: order independence, referential closure and freezing. */
module RegistryRuns {
  import opened Core
  import opened ClassMetadata
  import opened Entities
  import opened RegistrySpec
  import opened RegistryCanon
  import opened RegistryOrder

  // ----- Starting and completing one registration -----

  function Start(g: Progress, r: Refl): Progress {
    g.(busy := g.busy + {r})
  }

  /** r completed: its children are no longer extra. */
  function Complete(g: Progress, r: Refl, extra: set<Refl>): Progress {
    Progress(g.known, g.full + {r}, extra, g.busy - {r})
  }

  lemma StartStep(p: Program, g: Progress, r: Refl)
    requires Sound(p) && Legal(p, g) && IsTopLevel(p, r) && r !in g.full
    ensures Legal(p, Start(g, r))
    ensures Canon(p, Start(g, r)) == Canon(p, g).(registering := Canon(p, g).registering + {p.id[r]})
  {
    assert Present(p, Start(g, r)) == Present(p, g);
    assert Images(p, g.busy + {r}) == Images(p, g.busy) + {p.id[r]};
  }

  /** All that is stored for r is in place, so that r can be marked complete. */
  ghost predicate ReadyToComplete(p: Program, g: Progress, r: Refl, extra: set<Refl>)
    requires WellFormed(p)
  {
    && Legal(p, g) && IsTopLevel(p, r) && !p.decls[r].PlainType? && r in g.busy
    && g.extra == extra + Children(p, r)
    && (forall x | x in extra :: IsChild(p, x) && TopOwner(p, x) in g.busy - {r})
    && Needs(p, r) <= g.known && Fulls(p, r) <= g.full + {r}
  }

  lemma ChildrenOfAllMore(p: Program, rs: set<Refl>, r: Refl)
    requires WellFormed(p) && (forall q | q in rs :: IsTopLevel(p, q)) && IsTopLevel(p, r)
    ensures ChildrenOfAll(p, rs + {r}) == ChildrenOfAll(p, rs) + Children(p, r)
  {
  }

  lemma Regroup(known: set<Refl>, full: set<Refl>, all: set<Refl>, own: set<Refl>, extra: set<Refl>, r: Refl)
    ensures known + (full + {r}) + (all + own) + extra == known + full + all + (extra + own) + {r}
  {
  }

  lemma CompletePresent(p: Program, g: Progress, r: Refl, extra: set<Refl>)
    requires Sound(p) && ReadyToComplete(p, g, r, extra) && Legal(p, Complete(g, r, extra))
    ensures Present(p, Complete(g, r, extra)) == Present(p, g) + {r}
  {
    ChildrenOfAllMore(p, g.full, r);
    Regroup(g.known, g.full, ChildrenOfAll(p, g.full), Children(p, r), extra, r);
  }

  lemma CompleteLegal(p: Program, g: Progress, r: Refl, extra: set<Refl>)
    requires Sound(p) && ReadyToComplete(p, g, r, extra)
    ensures Legal(p, Complete(g, r, extra))
  {
  }

  lemma EntityComplete(p: Program, present: set<Refl>, full: set<Refl>, r: Refl)
    requires Sound(p) && (forall q | q in present :: q in p.decls) && r in p.decls
    ensures EntityTable(p, present + {r}, full + {r})
            == EntityTable(p, present, full)[p.id[r] := EntityOf(p, r, true)]
  {
    if r in present {
      assert present + {r} == present;
      EntityPromote(p, present, full, r);
    } else {
      EntityInsert(p, present, full, r);
      EntityPromote(p, present + {r}, full, r);
      UpdateTwice(EntityTable(p, present, full), p.id[r], EntityOf(p, r, r in full), EntityOf(p, r, true));
    }
  }

  lemma UpdateTwice<K, V>(m: map<K, V>, k: K, u: V, v: V)
    ensures m[k := u][k := v] == m[k := v]
  {
  }

  /** Completing r in any order of its display name and identifier. */
  function CompletedNames(p: Program, names: map<string, Info>, r: Refl): map<string, Info>
    requires WellFormed(p) && r in p.decls
  {
    var d := p.decls[r];
    match d
    case FreeFunction(identifier, display, _) => AddName(AddName(names, display, p.id[r]), identifier, p.id[r])
    case GlobalVariable(identifier, display, _) => AddName(AddName(names, display, p.id[r]), identifier, p.id[r])
    case ClassType(display, _, _, _, _) => AddName(names, display, p.id[r])
    case EnumType(display, _, _, _, _) => AddName(names, display, p.id[r])
    case _ => names
  }

  lemma PairsOfTwo(n: string, m: string, r: Refl)
    ensures Pairs({n, m}, r) == Pairs({n}, r) + Pairs({m}, r)
  {
  }

  lemma FileOne(p: Program, filed: set<(string, Refl)>, n: string, r: Refl)
    requires Sound(p) && (forall a | a in filed :: a.1 in p.decls) && r in p.decls
    ensures NameTable(p, filed + Pairs({n}, r)) == AddName(NameTable(p, filed), n, p.id[r])
  {
    PairsOfOne(n, r);
    assert filed + {} == filed;
    Refile(p, filed, filed + Pairs({n}, r), n, r);
  }

  lemma FileTwo(p: Program, filed: set<(string, Refl)>, n: string, m: string, r: Refl)
    requires Sound(p) && (forall a | a in filed :: a.1 in p.decls) && r in p.decls
    ensures NameTable(p, filed + Pairs({n, m}, r)) == AddName(AddName(NameTable(p, filed), n, p.id[r]), m, p.id[r])
  {
    FileOne(p, filed, n, r);
    FileOne(p, filed + Pairs({n}, r), m, r);
    PairsOfTwo(n, m, r);
    assert filed + Pairs({n, m}, r) == filed + Pairs({n}, r) + Pairs({m}, r);
  }

  lemma CompleteNames(p: Program, known: set<Refl>, full: set<Refl>, r: Refl)
    requires Sound(p) && (forall q | q in known + full :: q in p.decls) && r in p.decls
    requires IsTopLevel(p, r) && !p.decls[r].PlainType?
    ensures NameTable(p, Filed(p, known, full + {r})) == CompletedNames(p, NameTable(p, Filed(p, known, full)), r)
  {
    var before, d := Filed(p, known, full), p.decls[r];
    FiledIn(p, known, full);
    FiledMore(p, known, full, r);
    if d.FreeFunction? || d.GlobalVariable? {
      assert CompletionNames(d) == {d.display, d.identifier};
      FileTwo(p, before, d.display, d.identifier, r);
    } else {
      FileOne(p, before, d.display, r);
    }
  }

  /** The bookkeeping that turns the state before completion into the one after. */
  function CompletedState(p: Program, s: State, r: Refl): State
    requires WellFormed(p) && r in p.decls
  {
    s.(entities := s.entities[p.id[r] := EntityOf(p, r, true)],
       names := CompletedNames(p, s.names, r),
       materialization := s.materialization[p.id[r] := FullyMaterialized],
       registering := s.registering - {p.id[r]})
  }

  lemma ImagesDrop(p: Program, rs: set<Refl>, r: Refl)
    requires Sound(p) && (forall q | q in rs :: q in p.decls) && r in p.decls
    ensures Images(p, rs - {r}) == Images(p, rs) - {p.id[r]}
  {
  }

  lemma CompleteStep(p: Program, g: Progress, r: Refl, extra: set<Refl>)
    requires Sound(p) && ReadyToComplete(p, g, r, extra)
    ensures Legal(p, Complete(g, r, extra))
    ensures Canon(p, Complete(g, r, extra)) == CompletedState(p, Canon(p, g), r)
  {
    CompleteLegal(p, g, r, extra);
    CompletePresent(p, g, r, extra);
    EntityComplete(p, Present(p, g), g.full, r);
    CompleteNames(p, g.known, g.full, r);
    MaterializationComplete(p, g.known, g.full, r);
    ImagesDrop(p, g.busy, r);
  }

  /** Everything that registering r adds, in one step. */
  function End(p: Program, g: Progress, r: Refl): Progress
    requires WellFormed(p) && IsTopLevel(p, r)
  {
    Progress(g.known + Needs(p, r), g.full + Fulls(p, r), g.extra, g.busy)
  }

  /** No registration under way concerns r or one of its bases. */
  ghost predicate Clear(p: Program, g: Progress, r: Refl)
    requires WellFormed(p) && Legal(p, g) && r in p.decls
  {
    forall b | b in g.busy :: p.rank[b] > p.rank[r]
  }

  lemma RegisterUnfolds(p: Program, s: State, r: Refl, t: State)
    requires WellFormed(p) && IsTopLevel(p, r)
    requires !s.frozen && !IsFull(s, p.id[r]) && p.id[r] !in s.registering
    requires Dispatch(p, s.(registering := s.registering + {p.id[r]}), r) == Outcome(t, Success)
    ensures RegisterEntity(p, s, r)
         == Outcome(MarkFull(t.(registering := t.registering - {p.id[r]}), p.id[r]), Success)
  {
  }

  /** The bookkeeping of register_entity around a successful dispatch. */
  lemma Wrapped(p: Program, g: Progress, r: Refl, done: Progress, dispatched: State)
    requires Sound(p) && Legal(p, g) && IsTopLevel(p, r) && !p.decls[r].PlainType? && r !in g.full && Clear(p, g, r)
    requires Dispatch(p, Canon(p, Start(g, r)), r) == Outcome(dispatched, Success)
    requires ReadyToComplete(p, done, r, g.extra)
    requires dispatched == Canon(p, done).(
               entities := Canon(p, done).entities[p.id[r] := EntityOf(p, r, true)],
               names := CompletedNames(p, Canon(p, done).names, r))
    requires Complete(done, r, g.extra) == End(p, g, r)
    ensures Legal(p, End(p, g, r))
    ensures RegisterEntity(p, Canon(p, g), r) == Outcome(Canon(p, End(p, g, r)), Success)
  {
    MaterializedIff(p, g, r);
    StartStep(p, g, r);
    assert p.id[r] !in Images(p, g.busy);
    RegisterUnfolds(p, Canon(p, g), r, dispatched);
    CompleteStep(p, done, r, g.extra);
  }

  // ----- Functions and variables -----

  lemma FreeFunctionReady(p: Program, g: Progress, f: Refl)
    requires Sound(p) && Legal(p, g) && f in p.decls && p.decls[f].FreeFunction? && f !in g.full && Clear(p, g, f)
    requires Legal(p, AfterSignature(p, Start(g, f), f))
    ensures ReadyToComplete(p, AfterSignature(p, Start(g, f), f), f, g.extra)
    ensures Complete(AfterSignature(p, Start(g, f), f), f, g.extra) == End(p, g, f)
  {
    var done := AfterSignature(p, Start(g, f), f);
    assert (g.busy + {f}) - {f} == g.busy;
  }

  lemma ParametersAreNew(p: Program, g: Progress, f: Refl)
    requires Sound(p) && Legal(p, g)
    requires f in p.decls && (p.decls[f].FreeFunction? || p.decls[f].FunctionDecl?) && Keeper(p, f) !in g.busy
    ensures forall i | 0 <= i < |ParametersOf(p, f)| :: ParametersOf(p, f)[i] !in g.extra
  {
  }

  lemma NotStored(p: Program, g: Progress, r: Refl)
    requires Sound(p) && Legal(p, g) && IsTopLevel(p, r) && !IsType(p, r) && r !in g.full
    ensures p.id[r] !in Canon(p, g).entities
  {
    if r in ChildrenOfAll(p, g.full) {
      var q :| q in g.full && r in Children(p, q);
      ChildrenOwned(p, q, r);
    }
    EntityAbsent(p, Present(p, g), g.full, r);
  }

  lemma FreeFunctionStep(p: Program, g: Progress, f: Refl)
    requires Sound(p) && Legal(p, g) && f in p.decls && p.decls[f].FreeFunction? && f !in g.full && Clear(p, g, f)
    ensures Legal(p, End(p, g, f))
    ensures RegisterEntity(p, Canon(p, g), f) == Outcome(Canon(p, End(p, g, f)), Success)
  {
    StartStep(p, g, f);
    ParametersAreNew(p, g, f);
    SignatureStep(p, Start(g, f), f);
    var done := AfterSignature(p, Start(g, f), f);
    FreeFunctionReady(p, g, f);
    NotStored(p, done, f);
    var o := RegisterFreeFunction(p, Canon(p, Start(g, f)), f);
    assert o.error == Success;
    Wrapped(p, g, f, done, o.state);
  }

  lemma VariableReady(p: Program, g: Progress, v: Refl)
    requires Sound(p) && Legal(p, g) && v in p.decls && p.decls[v].GlobalVariable? && v !in g.full && Clear(p, g, v)
    requires IsType(p, p.decls[v].varType)
    requires Legal(p, Knowing(Start(g, v), Chain(p, p.decls[v].varType)))
    ensures ReadyToComplete(p, Knowing(Start(g, v), Chain(p, p.decls[v].varType)), v, g.extra)
    ensures Complete(Knowing(Start(g, v), Chain(p, p.decls[v].varType)), v, g.extra) == End(p, g, v)
  {
    assert g.extra + Children(p, v) == g.extra;
    assert (g.busy + {v}) - {v} == g.busy;
  }

  lemma VariableStep(p: Program, g: Progress, v: Refl)
    requires Sound(p) && Legal(p, g) && v in p.decls && p.decls[v].GlobalVariable? && v !in g.full && Clear(p, g, v)
    ensures Legal(p, End(p, g, v))
    ensures RegisterEntity(p, Canon(p, g), v) == Outcome(Canon(p, End(p, g, v)), Success)
  {
    assert DeclWellFormed(p, v);
    StartStep(p, g, v);
    EnsureStep(p, Start(g, v), p.decls[v].varType);
    var done := Knowing(Start(g, v), Chain(p, p.decls[v].varType));
    VariableReady(p, g, v);
    NotStored(p, done, v);
    var o := RegisterVariable(p, Canon(p, Start(g, v)), v);
    assert o.error == Success;
    Wrapped(p, g, v, done, o.state);
  }

  // ----- Enums -----

  function AfterEnumerators(p: Program, g: Progress, e: Refl, k: nat): Progress
    requires e in p.decls && p.decls[e].EnumType? && k <= |p.decls[e].enumerators|
  {
    Holding(g, Elements(p.decls[e].enumerators, k))
  }

  /** The enum's own entity replaced, everything else in closed form. */
  ghost function Overriding(p: Program, g: Progress, e: Refl, entity: Entity): State
    requires WellFormed(p) && Legal(p, g) && e in p.decls
  {
    Canon(p, g).(entities := Canon(p, g).entities[p.id[e] := entity])
  }

  lemma UpdatesCommute<K, V>(m: map<K, V>, a: K, u: V, b: K, v: V)
    requires a != b
    ensures m[a := u][b := v] == m[b := v][a := u]
  {
  }

  lemma OverrideInsert(s: State, id: Info, entity: Entity, x: Info, child: Entity, t: State)
    requires x != id && InsertUnique(s, x, child) == Outcome(t, Success)
    ensures InsertUnique(s.(entities := s.entities[id := entity]), x, child)
            == Outcome(t.(entities := t.entities[id := entity]), Success)
  {
    UpdatesCommute(s.entities, id, entity, x, child);
  }

  lemma EnumeratorFacts(p: Program, e: Refl, x: Refl)
    requires Sound(p) && IsEnumeratorOf(p, e, x) && e in p.decls && p.decls[e].EnumType?
    ensures IsChild(p, x) && TopOwner(p, x) == e && p.id[x] != p.id[e]
    ensures EntityOf(p, x, false) == EnumeratorOf(p, x)
  {
  }

  lemma EnumeratorStep(p: Program, g: Progress, e: Refl, x: Refl, entity: Entity)
    requires Sound(p) && Legal(p, g) && e in g.busy && p.decls[e].EnumType?
    requires IsEnumeratorOf(p, e, x) && x !in g.extra
    ensures Legal(p, Holding(g, {x}))
    ensures InsertUnique(Overriding(p, g, e, entity), p.id[x], EnumeratorOf(p, x))
            == Outcome(Overriding(p, Holding(g, {x}), e, entity), Success)
  {
    EnumeratorFacts(p, e, x);
    InsertChild(p, g, x);
    OverrideInsert(Canon(p, g), p.id[e], entity, p.id[x], EnumeratorOf(p, x), Canon(p, Holding(g, {x})));
  }

  /** One enumerator takes the progress after k of them to that after k + 1. */
  lemma EnumeratorTurn(p: Program, g: Progress, e: Refl, k: nat, entity: Entity)
    requires Sound(p) && e in g.busy && e in p.decls && p.decls[e].EnumType?
    requires k < |p.decls[e].enumerators| && Legal(p, AfterEnumerators(p, g, e, k))
    requires p.decls[e].enumerators[k] !in g.extra
    ensures Legal(p, AfterEnumerators(p, g, e, k + 1))
    ensures RegisterEnumerators(p, Overriding(p, AfterEnumerators(p, g, e, k), e, entity), e, k)
         == RegisterEnumerators(p, Overriding(p, AfterEnumerators(p, g, e, k + 1), e, entity), e, k + 1)
  {
    var xs := p.decls[e].enumerators;
    assert DeclWellFormed(p, e) && IsEnumeratorOf(p, e, xs[k]);
    ElementsGrow(xs, k);
    EnumeratorStep(p, AfterEnumerators(p, g, e, k), e, xs[k], entity);
    AfterEnumeratorsNext(p, g, e, k);
    EnumeratorsUnfold(p, Overriding(p, AfterEnumerators(p, g, e, k), e, entity), e, k,
                      Overriding(p, AfterEnumerators(p, g, e, k + 1), e, entity));
  }

  lemma AfterEnumeratorsNext(p: Program, g: Progress, e: Refl, k: nat)
    requires WellFormed(p) && e in p.decls && p.decls[e].EnumType? && k < |p.decls[e].enumerators|
    ensures Holding(AfterEnumerators(p, g, e, k), {p.decls[e].enumerators[k]}) == AfterEnumerators(p, g, e, k + 1)
  {
    var xs := p.decls[e].enumerators;
    assert g.extra + Elements(xs, k) + {xs[k]} == g.extra + Elements(xs, k + 1);
  }

  lemma EnumeratorsUnfold(p: Program, s: State, e: Refl, k: nat, t: State)
    requires WellFormed(p) && e in p.decls && p.decls[e].EnumType? && k < |p.decls[e].enumerators|
    requires IsEnumeratorOf(p, e, p.decls[e].enumerators[k])
    requires InsertUnique(s, p.id[p.decls[e].enumerators[k]], EnumeratorOf(p, p.decls[e].enumerators[k]))
             == Outcome(t, Success)
    ensures RegisterEnumerators(p, s, e, k) == RegisterEnumerators(p, t, e, k + 1)
  {
  }

  lemma EnumeratorsEnd(p: Program, s: State, e: Refl)
    requires WellFormed(p) && e in p.decls && p.decls[e].EnumType?
    ensures RegisterEnumerators(p, s, e, |p.decls[e].enumerators|) == Outcome(s, Success)
  {
  }

  lemma EnumeratorsFrom(p: Program, g: Progress, e: Refl, entity: Entity)
    requires Sound(p) && e in g.busy && e in p.decls && p.decls[e].EnumType?
    requires Legal(p, AfterEnumerators(p, g, e, 0))
    requires forall x | x in p.decls[e].enumerators :: x !in g.extra
    ensures Legal(p, AfterEnumerators(p, g, e, |p.decls[e].enumerators|))
    ensures RegisterEnumerators(p, Overriding(p, AfterEnumerators(p, g, e, 0), e, entity), e, 0)
            == Outcome(Overriding(p, AfterEnumerators(p, g, e, |p.decls[e].enumerators|), e, entity), Success)
  {
    var n := |p.decls[e].enumerators|;
    var whole := RegisterEnumerators(p, Overriding(p, AfterEnumerators(p, g, e, 0), e, entity), e, 0);
    for k := 0 to n
      invariant Legal(p, AfterEnumerators(p, g, e, k))
      invariant whole == RegisterEnumerators(p, Overriding(p, AfterEnumerators(p, g, e, k), e, entity), e, k)
    {
      EnumeratorTurn(p, g, e, k, entity);
    }
    EnumeratorsEnd(p, Overriding(p, AfterEnumerators(p, g, e, n), e, entity), e);
  }

  /** Both dependencies of an enum: itself and its underlying type. */
  function EnumKnown(p: Program, g: Progress, e: Refl): Progress
    requires WellFormed(p) && e in p.decls && p.decls[e].EnumType?
  {
    assert DeclWellFormed(p, e);
    Knowing(Knowing(g, Chain(p, e)), Chain(p, p.decls[e].underlying))
  }

  lemma EnumDependencies(p: Program, g: Progress, e: Refl)
    requires Sound(p) && Legal(p, g) && e in p.decls && p.decls[e].EnumType? && e !in g.full
    ensures Legal(p, EnumKnown(p, g, e))
    ensures Legal(p, Knowing(g, Chain(p, e)))
    ensures EnsureType(p, Canon(p, g), e) == Canon(p, Knowing(g, Chain(p, e)))
    ensures EnsureType(p, Canon(p, Knowing(g, Chain(p, e))), p.decls[e].underlying) == Canon(p, EnumKnown(p, g, e))
  {
    assert DeclWellFormed(p, e);
    EnsureStep(p, g, e);
    EnsureStep(p, Knowing(g, Chain(p, e)), p.decls[e].underlying);
  }

  lemma StubStored(p: Program, g: Progress, t: Refl)
    requires Sound(p) && Legal(p, g) && IsType(p, t) && t in g.known && t !in g.full
    ensures p.id[t] in Canon(p, g).entities && Canon(p, g).entities[p.id[t]] == EntityOf(p, t, false)
  {
    EntityPromote(p, Present(p, g), g.full, t);
  }

  /** set_underlying_type_id and the entries are written into the stored stub. */
  lemma EnumPromoted(p: Program, g: Progress, e: Refl)
    requires Sound(p) && Legal(p, g) && e in p.decls && p.decls[e].EnumType? && e !in g.full
    ensures Legal(p, EnumKnown(p, g, e))
    ensures RegisterEnum(p, Canon(p, g), e)
            == var o := RegisterEnumerators(p, Overriding(p, EnumKnown(p, g, e), e, EntityOf(p, e, true)), e, 0);
               if o.error != Success then o else Outcome(Naming(o.state, p.decls[e].display, p.id[e]), Success)
  {
    EnumDependencies(p, g, e);
    StubStored(p, Knowing(g, Chain(p, e)), e);
    StubStored(p, EnumKnown(p, g, e), e);
  }

  lemma EnumNamed(p: Program, o: Outcome, e: Refl, written: State, done: State)
    requires WellFormed(p) && e in p.decls && p.decls[e].EnumType?
    requires o == var x := RegisterEnumerators(p, written, e, 0);
                  if x.error != Success then x else Outcome(Naming(x.state, p.decls[e].display, p.id[e]), Success)
    requires RegisterEnumerators(p, written, e, 0) == Outcome(done, Success)
    ensures o == Outcome(Naming(done, p.decls[e].display, p.id[e]), Success)
  {
  }

  lemma NoEnumeratorsYet(p: Program, g: Progress, e: Refl)
    requires WellFormed(p) && e in p.decls && p.decls[e].EnumType?
    ensures AfterEnumerators(p, g, e, 0) == g
  {
    assert g.extra + Elements(p.decls[e].enumerators, 0) == g.extra;
  }

  lemma EnumDispatch(p: Program, g: Progress, e: Refl)
    requires Sound(p) && Legal(p, g) && e in p.decls && p.decls[e].EnumType? && e !in g.full && e in g.busy
    requires forall x | x in p.decls[e].enumerators :: x !in g.extra
    ensures var done := AfterEnumerators(p, EnumKnown(p, g, e), e, |p.decls[e].enumerators|);
            Legal(p, done)
            && RegisterEnum(p, Canon(p, g), e)
               == Outcome(Naming(Overriding(p, done, e, EntityOf(p, e, true)), p.decls[e].display, p.id[e]), Success)
  {
    EnumPromoted(p, g, e);
    var known := EnumKnown(p, g, e);
    NoEnumeratorsYet(p, known, e);
    EnumeratorsFrom(p, known, e, EntityOf(p, e, true));
    EnumNamed(p, RegisterEnum(p, Canon(p, g), e), e, Overriding(p, known, e, EntityOf(p, e, true)),
              Overriding(p, AfterEnumerators(p, known, e, |p.decls[e].enumerators|), e, EntityOf(p, e, true)));
  }

  lemma EnumReady(p: Program, g: Progress, e: Refl)
    requires Sound(p) && Legal(p, g) && e in p.decls && p.decls[e].EnumType? && e !in g.full && Clear(p, g, e)
    requires Legal(p, AfterEnumerators(p, EnumKnown(p, Start(g, e), e), e, |p.decls[e].enumerators|))
    ensures var done := AfterEnumerators(p, EnumKnown(p, Start(g, e), e), e, |p.decls[e].enumerators|);
            ReadyToComplete(p, done, e, g.extra) && Complete(done, e, g.extra) == End(p, g, e)
  {
    assert DeclWellFormed(p, e);
    assert (g.busy + {e}) - {e} == g.busy;
    assert g.known + {e} + Chain(p, p.decls[e].underlying) == g.known + Needs(p, e);
  }

  lemma EnumStep(p: Program, g: Progress, e: Refl)
    requires Sound(p) && Legal(p, g) && e in p.decls && p.decls[e].EnumType? && e !in g.full && Clear(p, g, e)
    ensures Legal(p, End(p, g, e))
    ensures RegisterEntity(p, Canon(p, g), e) == Outcome(Canon(p, End(p, g, e)), Success)
  {
    assert DeclWellFormed(p, e);
    StartStep(p, g, e);
    forall x | x in p.decls[e].enumerators ensures x !in g.extra {
      var i :| 0 <= i < |p.decls[e].enumerators| && p.decls[e].enumerators[i] == x;
      assert IsEnumeratorOf(p, e, p.decls[e].enumerators[i]);
    }
    EnumDispatch(p, Start(g, e), e);
    EnumReady(p, g, e);
    var done := AfterEnumerators(p, EnumKnown(p, Start(g, e), e), e, |p.decls[e].enumerators|);
    Wrapped(p, g, e, done, RegisterEnum(p, Canon(p, Start(g, e)), e).state);
  }

  // ----- Class members -----

  function WithMember(p: Program, g: Progress, c: Refl, m: Refl): Progress
    requires WellFormed(p) && IsMemberOf(p, c, m)
  {
    Holding(Knowing(g, MemberNeeds(p, c, m)), MemberEntities(p, c, m))
  }

  lemma DataMemberStep(p: Program, g: Progress, c: Refl, m: Refl)
    requires Sound(p) && Legal(p, g) && IsMemberOf(p, c, m) && c in g.busy
    requires p.decls[m].DataMemberDecl? && Included(MemberOf(p, m)) && m !in g.extra
    ensures Legal(p, WithMember(p, g, c, m))
    ensures RegisterMember(p, Canon(p, g), c, m) == Outcome(Canon(p, WithMember(p, g, c, m)), Success)
  {
    assert DeclWellFormed(p, m);
    EnsureStep(p, g, p.decls[m].memberType);
    InsertChild(p, Knowing(g, Chain(p, p.decls[m].memberType)), m);
  }

  lemma FunctionEntities(p: Program, g: Progress, c: Refl, m: Refl)
    requires Sound(p) && IsMemberOf(p, c, m)
    requires p.decls[m].FunctionDecl? && Included(MemberOf(p, m)) && !p.decls[m].kind.Destructor?
    ensures Holding(AfterSignature(p, g, m), {m}) == WithMember(p, g, c, m)
    ensures m !in g.extra ==> m !in AfterSignature(p, g, m).extra
  {
    var ps := ParametersOf(p, m);
    assert g.extra + Elements(ps, |ps|) + {m} == g.extra + ({m} + Elements(ps, |ps|));
  }

  lemma FunctionMemberUnfolds(p: Program, s: State, c: Refl, m: Refl, signed: State, t: State)
    requires WellFormed(p) && IsMemberOf(p, c, m) && p.decls[m].FunctionDecl? && !p.decls[m].kind.Destructor?
    requires RegisterSignature(p, s, m) == Outcome(signed, Success)
    requires InsertUnique(signed, p.id[m], FunctionOf(p, m)) == Outcome(t, Success)
    ensures RegisterMember(p, s, c, m) == Outcome(t, Success)
  {
  }

  lemma OwnEntitiesNew(p: Program, g: Progress, c: Refl, m: Refl)
    requires Sound(p) && IsMemberOf(p, c, m) && MemberEntities(p, c, m) !! g.extra
    requires p.decls[m].FunctionDecl? && Included(MemberOf(p, m)) && !p.decls[m].kind.Destructor?
    ensures m !in g.extra && forall i | 0 <= i < |ParametersOf(p, m)| :: ParametersOf(p, m)[i] !in g.extra
  {
    var ps := ParametersOf(p, m);
    assert forall i | 0 <= i < |ps| :: ps[i] in Elements(ps, |ps|);
  }

  lemma FunctionInserted(p: Program, g: Progress, c: Refl, m: Refl)
    requires Sound(p) && IsMemberOf(p, c, m) && c in g.busy && m !in g.extra
    requires p.decls[m].FunctionDecl? && Included(MemberOf(p, m)) && !p.decls[m].kind.Destructor?
    requires Legal(p, AfterSignature(p, g, m))
    ensures Legal(p, WithMember(p, g, c, m))
    ensures InsertUnique(Canon(p, AfterSignature(p, g, m)), p.id[m], FunctionOf(p, m))
         == Outcome(Canon(p, WithMember(p, g, c, m)), Success)
  {
    FunctionEntities(p, g, c, m);
    InsertChild(p, AfterSignature(p, g, m), m);
  }

  lemma FunctionMemberStep(p: Program, g: Progress, c: Refl, m: Refl)
    requires Sound(p) && Legal(p, g) && IsMemberOf(p, c, m) && c in g.busy
    requires p.decls[m].FunctionDecl? && Included(MemberOf(p, m)) && !p.decls[m].kind.Destructor?
    requires MemberEntities(p, c, m) !! g.extra
    ensures Legal(p, WithMember(p, g, c, m))
    ensures RegisterMember(p, Canon(p, g), c, m) == Outcome(Canon(p, WithMember(p, g, c, m)), Success)
  {
    OwnEntitiesNew(p, g, c, m);
    SignatureStep(p, g, m);
    FunctionInserted(p, g, c, m);
    FunctionMemberUnfolds(p, Canon(p, g), c, m, Canon(p, AfterSignature(p, g, m)), Canon(p, WithMember(p, g, c, m)));
  }

  lemma DestructorEntities(p: Program, g: Progress, c: Refl, m: Refl)
    requires Sound(p) && IsMemberOf(p, c, m) && p.decls[m].FunctionDecl? && p.decls[m].kind.Destructor?
    ensures Holding(g, {m}) == WithMember(p, g, c, m)
  {
    assert g.known + MemberNeeds(p, c, m) == g.known;
  }

  lemma DestructorStep(p: Program, g: Progress, c: Refl, m: Refl)
    requires Sound(p) && Legal(p, g) && IsMemberOf(p, c, m) && c in g.busy
    requires p.decls[m].FunctionDecl? && p.decls[m].kind.Destructor? && m !in g.extra
    ensures Legal(p, WithMember(p, g, c, m))
    ensures RegisterMember(p, Canon(p, g), c, m) == Outcome(Canon(p, WithMember(p, g, c, m)), Success)
  {
    DestructorEntities(p, g, c, m);
    InsertChild(p, g, m);
  }

  lemma MemberStep(p: Program, g: Progress, c: Refl, m: Refl)
    requires Sound(p) && Legal(p, g) && IsMemberOf(p, c, m) && c in g.busy
    requires Included(MemberOf(p, m)) && MemberEntities(p, c, m) !! g.extra
    ensures Legal(p, WithMember(p, g, c, m))
    ensures RegisterMember(p, Canon(p, g), c, m) == Outcome(Canon(p, WithMember(p, g, c, m)), Success)
  {
    var d := p.decls[m];
    if d.DataMemberDecl? {
      assert m in MemberEntities(p, c, m);
      DataMemberStep(p, g, c, m);
    } else if d.FunctionDecl? && d.kind.Destructor? {
      assert m in MemberEntities(p, c, m);
      DestructorStep(p, g, c, m);
    } else if d.FunctionDecl? {
      FunctionMemberStep(p, g, c, m);
    } else {
      assert WithMember(p, g, c, m) == g by {
        assert g.known + {} == g.known && g.extra + {} == g.extra;
      }
    }
  }

  function MemberAt(p: Program, c: Refl, k: nat): (m: Refl)
    requires WellFormed(p) && c in p.decls && p.decls[c].ClassType? && k < |p.decls[c].members|
    ensures IsMemberOf(p, c, m)
  {
    assert DeclWellFormed(p, c);
    assert IsMemberOf(p, c, p.decls[c].members[k]);
    p.decls[c].members[k]
  }

  function AfterMembers(p: Program, g: Progress, c: Refl, k: nat): Progress
    requires WellFormed(p) && c in p.decls && p.decls[c].ClassType? && k <= |p.decls[c].members|
  {
    Holding(Knowing(g, MembersNeeds(p, c, k)), MembersEntities(p, c, k))
  }

  lemma Regroup3(a: set<Refl>, b: set<Refl>, c: set<Refl>, d: set<Refl>)
    requires d == b + c
    ensures a + b + c == a + d
  {
  }

  lemma MembersNeedsNext(p: Program, c: Refl, k: nat)
    requires WellFormed(p) && c in p.decls && p.decls[c].ClassType? && k < |p.decls[c].members|
    ensures MembersNeeds(p, c, k + 1) == MembersNeeds(p, c, k) + MemberNeeds(p, c, MemberAt(p, c, k))
    ensures MembersEntities(p, c, k + 1) == MembersEntities(p, c, k) + MemberEntities(p, c, MemberAt(p, c, k))
  {
  }

  lemma AfterMembersNext(p: Program, g: Progress, c: Refl, k: nat)
    requires WellFormed(p) && c in p.decls && p.decls[c].ClassType? && k < |p.decls[c].members|
    ensures WithMember(p, AfterMembers(p, g, c, k), c, MemberAt(p, c, k)) == AfterMembers(p, g, c, k + 1)
    ensures !Included(MemberOf(p, MemberAt(p, c, k))) ==> AfterMembers(p, g, c, k) == AfterMembers(p, g, c, k + 1)
  {
    var m := MemberAt(p, c, k);
    MembersNeedsNext(p, c, k);
    Regroup3(g.known, MembersNeeds(p, c, k), MemberNeeds(p, c, m), MembersNeeds(p, c, k + 1));
    Regroup3(g.extra, MembersEntities(p, c, k), MemberEntities(p, c, m), MembersEntities(p, c, k + 1));
  }

  /** A member's entities belong to that member alone. */
  lemma {:induction false} MemberEntitiesNew(p: Program, c: Refl, k: nat, j: nat)
    requires WellFormed(p) && c in p.decls && p.decls[c].ClassType? && j <= k < |p.decls[c].members|
    ensures MemberEntities(p, c, MemberAt(p, c, k)) !! MembersEntities(p, c, j)
  {
    if j > 0 {
      MemberEntitiesNew(p, c, k, j - 1);
      assert DeclWellFormed(p, c);
      MemberEntitiesApart(p, c, MemberAt(p, c, k), MemberAt(p, c, j - 1));
      assert MembersEntities(p, c, j) == MembersEntities(p, c, j - 1) + MemberEntities(p, c, MemberAt(p, c, j - 1));
    }
  }

  /** The member an entity was stored for. */
  lemma MemberEntityOwner(p: Program, c: Refl, m: Refl, x: Refl)
    requires WellFormed(p) && IsMemberOf(p, c, m) && x in MemberEntities(p, c, m)
    ensures x in p.decls
    ensures p.decls[x].ParameterDecl? ==> p.decls[x].owner == m
    ensures !p.decls[x].ParameterDecl? ==> x == m
  {
    if x != m {
      var ps := ParametersOf(p, m);
      var i :| 0 <= i < |ps| && ps[i] == x;
      assert IsParameterOf(p, m, ps[i]);
    }
  }

  lemma MemberEntitiesApart(p: Program, c: Refl, m: Refl, n: Refl)
    requires WellFormed(p) && IsMemberOf(p, c, m) && IsMemberOf(p, c, n) && m != n
    ensures MemberEntities(p, c, m) !! MemberEntities(p, c, n)
  {
    if x :| x in MemberEntities(p, c, m) && x in MemberEntities(p, c, n) {
      MemberEntityOwner(p, c, m, x);
      MemberEntityOwner(p, c, n, x);
      assert false;
    }
  }

  ghost function ListsAt(p: Program, c: Refl, k: nat): MemberLists
    requires WellFormed(p) && c in p.decls && p.decls[c].ClassType? && k <= |p.decls[c].members|
  {
    assert DeclWellFormed(p, c);
    RuntimeLists(IdsOf(p, p.decls[c].bases), MembersOf(p, c)[..k])
  }

  lemma ListsNext(p: Program, c: Refl, k: nat)
    requires WellFormed(p) && c in p.decls && p.decls[c].ClassType? && k < |p.decls[c].members|
    ensures AfterMember(ListsAt(p, c, k), MemberOf(p, MemberAt(p, c, k))) == ListsAt(p, c, k + 1)
  {
    assert DeclWellFormed(p, c);
    RuntimeStep(IdsOf(p, p.decls[c].bases), MembersOf(p, c), k);
    assert MembersOf(p, c)[k] == MemberOf(p, MemberAt(p, c, k));
  }

  /** One member takes the progress after k of them to that after k + 1. */
  lemma MemberTurn(p: Program, g: Progress, c: Refl, k: nat)
    requires Sound(p) && c in g.busy && c in p.decls && p.decls[c].ClassType?
    requires k < |p.decls[c].members| && Legal(p, AfterMembers(p, g, c, k))
    requires forall j | 0 <= j < |p.decls[c].members| :: MemberEntities(p, c, MemberAt(p, c, j)) !! g.extra
    ensures Legal(p, AfterMembers(p, g, c, k + 1))
    ensures RegisterMembers(p, Canon(p, AfterMembers(p, g, c, k)), c, k, ListsAt(p, c, k))
            == RegisterMembers(p, Canon(p, AfterMembers(p, g, c, k + 1)), c, k + 1, ListsAt(p, c, k + 1))
  {
    var m := MemberAt(p, c, k);
    AfterMembersNext(p, g, c, k);
    ListsNext(p, c, k);
    if Included(MemberOf(p, m)) {
      MemberEntitiesNew(p, c, k, k);
      MemberStep(p, AfterMembers(p, g, c, k), c, m);
    }
  }

  lemma MembersEnd(p: Program, s: State, c: Refl, lists: MemberLists)
    requires WellFormed(p) && c in p.decls && p.decls[c].ClassType?
    ensures RegisterMembers(p, s, c, |p.decls[c].members|, lists) == ClassOutcome(s, Success, lists)
  {
  }

  lemma MembersFrom(p: Program, g: Progress, c: Refl)
    requires Sound(p) && c in g.busy && c in p.decls && p.decls[c].ClassType?
    requires Legal(p, AfterMembers(p, g, c, 0))
    requires forall j | 0 <= j < |p.decls[c].members| :: MemberEntities(p, c, MemberAt(p, c, j)) !! g.extra
    ensures Legal(p, AfterMembers(p, g, c, |p.decls[c].members|))
    ensures RegisterMembers(p, Canon(p, AfterMembers(p, g, c, 0)), c, 0, ListsAt(p, c, 0))
            == ClassOutcome(Canon(p, AfterMembers(p, g, c, |p.decls[c].members|)), Success,
                            ListsAt(p, c, |p.decls[c].members|))
  {
    var n := |p.decls[c].members|;
    var whole := RegisterMembers(p, Canon(p, AfterMembers(p, g, c, 0)), c, 0, ListsAt(p, c, 0));
    for k := 0 to n
      invariant Legal(p, AfterMembers(p, g, c, k))
      invariant whole == RegisterMembers(p, Canon(p, AfterMembers(p, g, c, k)), c, k, ListsAt(p, c, k))
    {
      MemberTurn(p, g, c, k);
    }
    MembersEnd(p, Canon(p, AfterMembers(p, g, c, n)), c, ListsAt(p, c, n));
  }

  // ----- Bases and classes -----

  function AfterBases(p: Program, g: Progress, c: Refl, k: nat): Progress
    requires WellFormed(p) && c in p.decls && p.decls[c].ClassType? && k <= |p.decls[c].bases|
  {
    Progress(g.known + BasesNeeds(p, c, k), g.full + BasesFulls(p, c, k),
             g.extra + Elements(p.decls[c].bases, k), g.busy)
  }

  ghost function BaseListsAt(p: Program, c: Refl, k: nat): MemberLists
    requires WellFormed(p) && c in p.decls && p.decls[c].ClassType? && k <= |p.decls[c].bases|
  {
    assert DeclWellFormed(p, c);
    NO_MEMBERS.(bases := IdsOf(p, p.decls[c].bases)[..k])
  }

  lemma BaseListsNext(p: Program, c: Refl, k: nat)
    requires WellFormed(p) && c in p.decls && p.decls[c].ClassType? && k < |p.decls[c].bases|
    requires p.decls[c].bases[k] in p.id
    ensures BaseListsAt(p, c, k).(bases := BaseListsAt(p, c, k).bases + [p.id[p.decls[c].bases[k]]])
            == BaseListsAt(p, c, k + 1)
  {
    assert DeclWellFormed(p, c);
    var ids := IdsOf(p, p.decls[c].bases);
    assert ids[..k] + [ids[k]] == ids[..k + 1];
  }

  lemma AfterBasesNext(p: Program, g: Progress, c: Refl, k: nat)
    requires WellFormed(p) && c in p.decls && p.decls[c].ClassType? && k < |p.decls[c].bases|
    ensures Holding(End(p, AfterBases(p, g, c, k), BaseTypeAt(p, c, k)), {p.decls[c].bases[k]})
            == AfterBases(p, g, c, k + 1)
  {
    var bs, t := p.decls[c].bases, BaseTypeAt(p, c, k);
    ElementsGrow(bs, k);
    Regroup3(g.known, BasesNeeds(p, c, k), Needs(p, t), BasesNeeds(p, c, k + 1));
    Regroup3(g.full, BasesFulls(p, c, k), Fulls(p, t), BasesFulls(p, c, k + 1));
    Regroup3(g.extra, Elements(bs, k), {bs[k]}, Elements(bs, k + 1));
  }

  /** Storing the base subobject once its class has been registered. */
  lemma BaseStep(p: Program, g: Progress, c: Refl, k: nat)
    requires Sound(p) && Legal(p, g) && c in g.busy && c in p.decls && p.decls[c].ClassType?
    requires k < |p.decls[c].bases| && p.decls[c].bases[k] !in g.extra && BaseTypeAt(p, c, k) in g.known
    ensures IsBaseOf(p, c, p.decls[c].bases[k])
    ensures Legal(p, Holding(g, {p.decls[c].bases[k]}))
    ensures InsertUnique(EnsureType(p, Canon(p, g), BaseTypeAt(p, c, k)), p.id[p.decls[c].bases[k]],
                         BaseOf(p, p.decls[c].bases[k]))
            == Outcome(Canon(p, Holding(g, {p.decls[c].bases[k]})), Success)
  {
    var b := p.decls[c].bases[k];
    assert DeclWellFormed(p, c);
    assert IsBaseOf(p, c, b);
    EnsureAgain(p, g, BaseTypeAt(p, c, k));
    InsertChild(p, g, b);
  }

  lemma AlreadyFull(p: Program, g: Progress, r: Refl)
    requires Sound(p) && Legal(p, g) && r in g.full
    ensures End(p, g, r) == g && RegisterEntity(p, Canon(p, g), r) == Outcome(Canon(p, g), Success)
  {
    MaterializedIff(p, g, r);
    assert g.known + Needs(p, r) == g.known && g.full + Fulls(p, r) == g.full;
  }

  lemma BasesUnfold(p: Program, s: State, c: Refl, k: nat, lists: MemberLists, s1: State, s2: State)
    requires WellFormed(p) && c in p.decls && p.decls[c].ClassType? && k < |p.decls[c].bases|
    requires IsBaseOf(p, c, p.decls[c].bases[k])
    requires RegisterEntity(p, s, BaseTypeAt(p, c, k)) == Outcome(s1, Success)
    requires InsertUnique(EnsureType(p, s1, BaseTypeAt(p, c, k)), p.id[p.decls[c].bases[k]],
                          BaseOf(p, p.decls[c].bases[k]))
             == Outcome(s2, Success)
    ensures RegisterBases(p, s, c, k, lists)
         == RegisterBases(p, s2, c, k + 1, lists.(bases := lists.bases + [p.id[p.decls[c].bases[k]]]))
  {
  }

  /** The progress between the bases of c is that before them and their share. */
  lemma BaseTurn(p: Program, g: Progress, c: Refl, k: nat)
    requires Sound(p) && c in p.decls && p.decls[c].ClassType? && k < |p.decls[c].bases|
    requires c in g.busy && (forall b | b in p.decls[c].bases :: b !in g.extra)
    requires Legal(p, AfterBases(p, g, c, k)) && Legal(p, End(p, AfterBases(p, g, c, k), BaseTypeAt(p, c, k)))
    requires var gk, t := AfterBases(p, g, c, k), BaseTypeAt(p, c, k);
             RegisterEntity(p, Canon(p, gk), t) == Outcome(Canon(p, End(p, gk, t)), Success)
    ensures Legal(p, AfterBases(p, g, c, k + 1))
    ensures RegisterBases(p, Canon(p, AfterBases(p, g, c, k)), c, k, BaseListsAt(p, c, k))
         == RegisterBases(p, Canon(p, AfterBases(p, g, c, k + 1)), c, k + 1, BaseListsAt(p, c, k + 1))
  {
    var gk, t := AfterBases(p, g, c, k), BaseTypeAt(p, c, k);
    assert DeclWellFormed(p, c);
    ElementsGrow(p.decls[c].bases, k);
    BaseStep(p, End(p, gk, t), c, k);
    AfterBasesNext(p, g, c, k);
    BaseListsNext(p, c, k);
    BasesUnfold(p, Canon(p, gk), c, k, BaseListsAt(p, c, k), Canon(p, End(p, gk, t)),
                Canon(p, AfterBases(p, g, c, k + 1)));
  }

  lemma BasesEnd(p: Program, s: State, c: Refl, lists: MemberLists)
    requires WellFormed(p) && c in p.decls && p.decls[c].ClassType?
    ensures RegisterBases(p, s, c, |p.decls[c].bases|, lists) == ClassOutcome(s, Success, lists)
  {
  }

  lemma {:induction false} BasesFrom(p: Program, g: Progress, c: Refl)
    requires Sound(p) && c in g.busy && c in p.decls && p.decls[c].ClassType?
    requires Legal(p, AfterBases(p, g, c, 0))
    requires forall b | b in g.busy :: p.rank[b] >= p.rank[c]
    requires forall b | b in p.decls[c].bases :: b !in g.extra
    ensures Legal(p, AfterBases(p, g, c, |p.decls[c].bases|))
    ensures RegisterBases(p, Canon(p, AfterBases(p, g, c, 0)), c, 0, BaseListsAt(p, c, 0))
            == ClassOutcome(Canon(p, AfterBases(p, g, c, |p.decls[c].bases|)), Success,
                            BaseListsAt(p, c, |p.decls[c].bases|))
    decreases p.rank[c], 0
  {
    var n := |p.decls[c].bases|;
    var whole := RegisterBases(p, Canon(p, AfterBases(p, g, c, 0)), c, 0, BaseListsAt(p, c, 0));
    for k := 0 to n
      invariant Legal(p, AfterBases(p, g, c, k))
      invariant whole == RegisterBases(p, Canon(p, AfterBases(p, g, c, k)), c, k, BaseListsAt(p, c, k))
    {
      RegisterStep(p, AfterBases(p, g, c, k), BaseTypeAt(p, c, k));
      BaseTurn(p, g, c, k);
    }
    BasesEnd(p, Canon(p, AfterBases(p, g, c, n)), c, BaseListsAt(p, c, n));
  }

  /** The progress just before a class is marked complete. */
  function ClassDone(p: Program, g: Progress, c: Refl): Progress
    requires WellFormed(p) && c in p.decls && p.decls[c].ClassType?
  {
    AfterMembers(p, AfterBases(p, Knowing(g, {c}), c, |p.decls[c].bases|), c, |p.decls[c].members|)
  }

  /** Nothing of c is stored before its registration starts. */
  lemma ClassIsNew(p: Program, g: Progress, c: Refl)
    requires Sound(p) && Legal(p, g) && c in p.decls && p.decls[c].ClassType? && c !in g.busy
    ensures forall b | b in p.decls[c].bases :: b !in g.extra
    ensures forall k | 0 <= k < |p.decls[c].members| ::
              MemberEntities(p, c, MemberAt(p, c, k)) !! g.extra + Elements(p.decls[c].bases, |p.decls[c].bases|)
  {
    var bs := p.decls[c].bases;
    assert DeclWellFormed(p, c);
    forall b | b in bs ensures b !in g.extra {
      var i :| 0 <= i < |bs| && bs[i] == b;
      assert IsBaseOf(p, c, bs[i]);
    }
    forall k, x | 0 <= k < |p.decls[c].members| && x in MemberEntities(p, c, MemberAt(p, c, k))
      ensures x !in g.extra + Elements(bs, |bs|)
    {
      MemberEntityIsNew(p, g, c, k, x);
    }
  }

  lemma {:induction false} MemberEntityListed(p: Program, c: Refl, j: nat, k: nat, x: Refl)
    requires WellFormed(p) && c in p.decls && p.decls[c].ClassType? && j < k <= |p.decls[c].members|
    requires x in MemberEntities(p, c, MemberAt(p, c, j))
    ensures x in MembersEntities(p, c, k)
  {
    assert MembersEntities(p, c, k) == MembersEntities(p, c, k - 1) + MemberEntities(p, c, MemberAt(p, c, k - 1));
    if j < k - 1 {
      MemberEntityListed(p, c, j, k - 1, x);
    }
  }

  lemma MemberEntityIsNew(p: Program, g: Progress, c: Refl, k: nat, x: Refl)
    requires Sound(p) && Legal(p, g) && c in p.decls && p.decls[c].ClassType? && c !in g.busy
    requires k < |p.decls[c].members| && x in MemberEntities(p, c, MemberAt(p, c, k))
    ensures x !in g.extra + Elements(p.decls[c].bases, |p.decls[c].bases|)
  {
    var bs := p.decls[c].bases;
    MemberEntityListed(p, c, k, |p.decls[c].members|, x);
    MembersEntitiesOwned(p, c, |p.decls[c].members|, x);
    MemberEntityOwner(p, c, MemberAt(p, c, k), x);
    BasesAreBases(p, c);
  }

  lemma BasesAreBases(p: Program, c: Refl)
    requires WellFormed(p) && c in p.decls && p.decls[c].ClassType?
    ensures forall b | b in Elements(p.decls[c].bases, |p.decls[c].bases|) :: IsBaseOf(p, c, b)
  {
    assert DeclWellFormed(p, c);
  }

  lemma ListsJoin(p: Program, c: Refl)
    requires WellFormed(p) && c in p.decls && p.decls[c].ClassType?
    ensures BaseListsAt(p, c, 0) == NO_MEMBERS
    ensures BaseListsAt(p, c, |p.decls[c].bases|) == ListsAt(p, c, 0)
    ensures ClassEntity(p.decls[c].display, p.decls[c].attributes, ListsAt(p, c, |p.decls[c].members|))
            == EntityOf(p, c, true)
  {
    assert DeclWellFormed(p, c);
    var ids, ms := IdsOf(p, p.decls[c].bases), MembersOf(p, c);
    assert ids[..|ids|] == ids && ids[..0] == [];
    assert ms[..|ms|] == ms && ms[..0] == [];
  }

  lemma StartOfBases(p: Program, g: Progress, c: Refl)
    requires WellFormed(p) && c in p.decls && p.decls[c].ClassType?
    ensures AfterBases(p, g, c, 0) == g
    ensures AfterMembers(p, g, c, 0) == g
  {
    assert g.known + {} == g.known && g.full + {} == g.full;
    assert Elements(p.decls[c].bases, 0) == {} && g.extra + {} == g.extra;
  }

  /** register_class, given what it does to the bases. */
  lemma {:induction false} ClassDispatch(p: Program, g: Progress, c: Refl)
    requires Sound(p) && Legal(p, g) && c in p.decls && p.decls[c].ClassType? && c !in g.full && Clear(p, g, c)
    ensures Legal(p, ClassDone(p, Start(g, c), c))
    ensures var done := Canon(p, ClassDone(p, Start(g, c), c));
            RegisterClass(p, Canon(p, Start(g, c)), c)
            == Outcome(Naming(done.(entities := done.entities[p.id[c] := EntityOf(p, c, true)]),
                              p.decls[c].display, p.id[c]), Success)
    decreases p.rank[c], 1
  {
    StartStep(p, g, c);
    var g0 := Start(g, c);
    EnsureStep(p, g0, c);
    var g1 := Knowing(g0, {c});
    ClassIsNew(p, g, c);
    ListsJoin(p, c);
    StartOfBases(p, g1, c);
    BasesFrom(p, g1, c);
    var g2 := AfterBases(p, g1, c, |p.decls[c].bases|);
    StartOfBases(p, g2, c);
    MembersFrom(p, g2, c);
  }

  /** What registering a class has added, table by table. */
  lemma ClassAdds(p: Program, g: Progress, c: Refl)
    requires WellFormed(p) && c in p.decls && p.decls[c].ClassType?
    ensures ClassDone(p, Start(g, c), c).known == g.known + Needs(p, c)
    ensures ClassDone(p, Start(g, c), c).extra == g.extra + Children(p, c)
  {
    var done, bs, ms := ClassDone(p, Start(g, c), c), |p.decls[c].bases|, |p.decls[c].members|;
    assert Needs(p, c) == {c} + BasesNeeds(p, c, bs) + MembersNeeds(p, c, ms);
    assert Children(p, c) == Elements(p.decls[c].bases, bs) + MembersEntities(p, c, ms);
    assert done.known == g.known + {c} + BasesNeeds(p, c, bs) + MembersNeeds(p, c, ms);
  }

  lemma ClassCompletes(p: Program, g: Progress, c: Refl)
    requires WellFormed(p) && c in p.decls && p.decls[c].ClassType?
    ensures ClassDone(p, Start(g, c), c).full + {c} == g.full + Fulls(p, c)
    ensures ClassDone(p, Start(g, c), c).busy == g.busy + {c}
  {
    assert Fulls(p, c) == {c} + BasesFulls(p, c, |p.decls[c].bases|);
  }

  lemma ClassReady(p: Program, g: Progress, c: Refl)
    requires Sound(p) && Legal(p, g) && c in p.decls && p.decls[c].ClassType? && c !in g.full && Clear(p, g, c)
    requires Legal(p, ClassDone(p, Start(g, c), c))
    ensures ReadyToComplete(p, ClassDone(p, Start(g, c), c), c, g.extra)
    ensures Complete(ClassDone(p, Start(g, c), c), c, g.extra) == End(p, g, c)
  {
    ClassAdds(p, g, c);
    ClassCompletes(p, g, c);
    assert (g.busy + {c}) - {c} == g.busy;
  }

  /** A plain type needs no registration of its own: it is complete once known. */
  lemma PlainStep(p: Program, g: Progress, t: Refl)
    requires Sound(p) && Legal(p, g) && t in p.decls && p.decls[t].PlainType? && Clear(p, g, t)
    ensures Legal(p, End(p, g, t))
    ensures RegisterEntity(p, Canon(p, g), t) == Outcome(Canon(p, End(p, g, t)), Success)
  {
    MaterializedIff(p, g, t);
    assert g.full + {} == g.full;
    assert End(p, g, t) == Knowing(g, Chain(p, t));
    if t in g.known {
      EnsureAgain(p, g, t);
    } else {
      PlainNew(p, g, t);
    }
  }

  lemma PlainNew(p: Program, g: Progress, t: Refl)
    requires Sound(p) && Legal(p, g) && t in p.decls && p.decls[t].PlainType? && Clear(p, g, t) && t !in g.known
    ensures Legal(p, Knowing(g, Chain(p, t)))
    ensures RegisterEntity(p, Canon(p, g), t) == Outcome(Canon(p, Knowing(g, Chain(p, t))), Success)
  {
    MaterializedIff(p, g, t);
    StartStep(p, g, t);
    EnsureStep(p, Start(g, t), t);
    EnsureStep(p, g, t);
    PlainWrapped(p, Knowing(g, Chain(p, t)), t);
    assert Start(Knowing(g, Chain(p, t)), t) == Knowing(Start(g, t), Chain(p, t));
  }

  lemma PlainWrapped(p: Program, g: Progress, t: Refl)
    requires Sound(p) && Legal(p, g) && t in p.decls && p.decls[t].PlainType? && t in g.known && Clear(p, g, t)
    ensures Legal(p, Start(g, t))
    ensures var s := Canon(p, Start(g, t));
            MarkFull(s.(registering := s.registering - {p.id[t]}), p.id[t]) == Canon(p, g)
  {
    StartStep(p, g, t);
    MaterializedIff(p, g, t);
    var m := Canon(p, g).materialization;
    assert m[p.id[t] := FullyMaterialized] == m;
    assert Images(p, g.busy) + {p.id[t]} - {p.id[t]} == Images(p, g.busy);
  }

  /** The main step: registering r, from any stage of any registration, succeeds
      and adds exactly what r needs. */
  lemma {:induction false} RegisterStep(p: Program, g: Progress, r: Refl)
    requires Sound(p) && Legal(p, g) && IsTopLevel(p, r) && Clear(p, g, r)
    ensures Legal(p, End(p, g, r))
    ensures RegisterEntity(p, Canon(p, g), r) == Outcome(Canon(p, End(p, g, r)), Success)
    decreases p.rank[r], 2
  {
    if r in g.full {
      AlreadyFull(p, g, r);
    } else if p.decls[r].FreeFunction? {
      FreeFunctionStep(p, g, r);
    } else if p.decls[r].GlobalVariable? {
      VariableStep(p, g, r);
    } else if p.decls[r].EnumType? {
      EnumStep(p, g, r);
    } else if p.decls[r].ClassType? {
      ClassDispatch(p, g, r);
      ClassReady(p, g, r);
      Wrapped(p, g, r, ClassDone(p, Start(g, r), r), RegisterClass(p, Canon(p, Start(g, r)), r).state);
    } else {
      PlainStep(p, g, r);
    }
  }
}
