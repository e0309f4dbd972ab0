/** Registration computes the closed form, whatever the order of the calls. */
module RegistryOrder {
  import opened Core
  import opened ClassMetadata
  import opened Entities
  import opened RegistrySpec
  import opened RegistryCanon

  ghost predicate Sound(p: Program) {
    WellFormed(p) && CollisionFree(p)
  }

  // ----- Table updates -----

  lemma ReflOfId(p: Program, r: Refl)
    requires Sound(p) && r in p.decls
    ensures ReflOf(p, p.id[r]) == r
  {
  }

  lemma EntityInsert(p: Program, present: set<Refl>, full: set<Refl>, x: Refl)
    requires Sound(p) && (forall r | r in present :: r in p.decls) && x in p.decls && x !in present
    ensures p.id[x] !in EntityTable(p, present, full)
    ensures EntityTable(p, present + {x}, full)
            == EntityTable(p, present, full)[p.id[x] := EntityOf(p, x, x in full)]
  {
    ReflOfId(p, x);
    assert Images(p, present + {x}) == Images(p, present) + {p.id[x]};
  }

  lemma EntityPromote(p: Program, present: set<Refl>, full: set<Refl>, r: Refl)
    requires Sound(p) && (forall r | r in present :: r in p.decls) && r in present
    ensures p.id[r] in EntityTable(p, present, full)
    ensures EntityTable(p, present, full)[p.id[r]] == EntityOf(p, r, r in full)
    ensures EntityTable(p, present, full + {r})
            == EntityTable(p, present, full)[p.id[r] := EntityOf(p, r, true)]
  {
    ReflOfId(p, r);
    forall id | id in Images(p, present)
      ensures EntityTable(p, present, full + {r})[id]
              == EntityTable(p, present, full)[p.id[r] := EntityOf(p, r, true)][id]
    {
      ReflOfId(p, ReflOf(p, id));
    }
  }

  lemma EntityAbsent(p: Program, present: set<Refl>, full: set<Refl>, r: Refl)
    requires Sound(p) && (forall r | r in present :: r in p.decls) && r in p.decls
    ensures p.id[r] in EntityTable(p, present, full) <==> r in present
  {
    if p.id[r] in Images(p, present) {
      var q :| q in present && p.id[q] == p.id[r];
      assert q == r;
    }
  }

  lemma MaterializationInsert(p: Program, known: set<Refl>, full: set<Refl>, t: Refl)
    requires Sound(p) && (forall r | r in known + full :: r in p.decls) && t in p.decls && t !in known + full
    ensures p.id[t] !in MaterializationTable(p, known, full)
    ensures MaterializationTable(p, known + {t}, full)
            == MaterializationTable(p, known, full)[p.id[t] :=
                 if p.decls[t].PlainType? then FullyMaterialized else DependencyStub]
  {
    ReflOfId(p, t);
    assert Images(p, known + {t} + full) == Images(p, known + full) + {p.id[t]};
  }

  lemma MaterializationComplete(p: Program, known: set<Refl>, full: set<Refl>, r: Refl)
    requires Sound(p) && (forall q | q in known + full :: q in p.decls) && r in p.decls
    ensures MaterializationTable(p, known, full + {r})
            == MaterializationTable(p, known, full)[p.id[r] := FullyMaterialized]
  {
    ReflOfId(p, r);
    assert Images(p, known + (full + {r})) == Images(p, known + full) + {p.id[r]};
    forall id | id in Images(p, known + full) && id != p.id[r]
      ensures ReflOf(p, id) in full + {r} <==> ReflOf(p, id) in full
    {
    }
  }

  lemma MaterializedIff(p: Program, g: Progress, r: Refl)
    requires Sound(p) && Legal(p, g) && r in p.decls
    ensures IsFull(Canon(p, g), p.id[r]) <==> r in g.full || (r in g.known && p.decls[r].PlainType?)
  {
    ReflOfId(p, r);
    if p.id[r] in Images(p, g.known + g.full) {
      var q :| q in g.known + g.full && p.id[q] == p.id[r];
      assert q == r;
    }
  }

  lemma BearersGrow(filed: set<(string, Refl)>, n: string, r: Refl, m: string)
    ensures BearersOf(filed + {(n, r)}, m) == if m == n then BearersOf(filed, m) + {r} else BearersOf(filed, m)
  {
    var more := filed + {(n, r)};
    forall q | q in BearersOf(filed, m) ensures q in BearersOf(more, m) {
      assert (m, q) in more;
    }
    if m == n {
      assert (m, r) in more;
    }
  }

  lemma NamesGrow(filed: set<(string, Refl)>, n: string, r: Refl)
    ensures NamesIn(filed + {(n, r)}) == NamesIn(filed) + {n}
  {
    var more := filed + {(n, r)};
    assert (n, r) in more;
    forall m | m in NamesIn(filed) ensures m in NamesIn(more) {
      var a :| a in filed && a.0 == m;
      assert a in more;
    }
  }

  lemma FileNameAt(p: Program, filed: set<(string, Refl)>, n: string, r: Refl, m: string)
    requires Sound(p) && (forall a | a in filed :: a.1 in p.decls) && r in p.decls
    ensures Resolve(p, BearersOf(filed + {(n, r)}, m))
            == if m != n then Resolve(p, BearersOf(filed, m))
               else if n !in NamesIn(filed) then p.id[r]
               else if Resolve(p, BearersOf(filed, n)) != p.id[r] then INVALID_INFO
               else Resolve(p, BearersOf(filed, n))
  {
    BearersGrow(filed, n, r, m);
    if m == n && n in NamesIn(filed) {
      var a :| a in filed && a.0 == n;
      assert a.1 in BearersOf(filed, n);
      ResolveMore(p, BearersOf(filed, n), r);
    } else if m == n {
      NoBearers(filed, n);
      assert IsLone({r}, r);
    }
  }

  lemma SameMaps<K, V>(a: map<K, V>, b: map<K, V>)
    requires a.Keys == b.Keys && forall k | k in a :: a[k] == b[k]
    ensures a == b
  {
  }

  lemma FileNameKeys(p: Program, filed: set<(string, Refl)>, n: string, r: Refl)
    requires Sound(p) && (forall a | a in filed :: a.1 in p.decls) && r in p.decls && n != ""
    ensures NameTable(p, filed + {(n, r)}).Keys == NamesIn(filed) + {n}
    ensures AddName(NameTable(p, filed), n, p.id[r]).Keys == NamesIn(filed) + {n}
  {
    NamesGrow(filed, n, r);
  }

  lemma FileNameEntry(p: Program, filed: set<(string, Refl)>, n: string, r: Refl, m: string)
    requires Sound(p) && (forall a | a in filed :: a.1 in p.decls) && r in p.decls && n != ""
    requires m in NamesIn(filed) + {n}
    ensures m in NameTable(p, filed + {(n, r)}) && m in AddName(NameTable(p, filed), n, p.id[r])
    ensures NameTable(p, filed + {(n, r)})[m] == AddName(NameTable(p, filed), n, p.id[r])[m]
  {
    NamesGrow(filed, n, r);
    FileNameAt(p, filed, n, r, m);
  }

  /** Filing a name once more changes only that name's answer. */
  lemma FileName(p: Program, filed: set<(string, Refl)>, n: string, r: Refl)
    requires Sound(p) && (forall a | a in filed :: a.1 in p.decls) && r in p.decls && n != ""
    ensures NameTable(p, filed + {(n, r)}) == AddName(NameTable(p, filed), n, p.id[r])
  {
    var before, after := NameTable(p, filed), NameTable(p, filed + {(n, r)});
    var added := AddName(before, n, p.id[r]);
    FileNameKeys(p, filed, n, r);
    forall m | m in after ensures after[m] == added[m] {
      FileNameEntry(p, filed, n, r, m);
    }
    SameMaps(after, added);
  }

  lemma NoBearers(filed: set<(string, Refl)>, n: string)
    requires n !in NamesIn(filed)
    ensures BearersOf(filed, n) == {}
  {
    assert forall a | a in filed :: a.0 in NamesIn(filed);
  }

  lemma ResolveMore(p: Program, bearers: set<Refl>, r: Refl)
    requires Sound(p) && bearers != {} && (forall q | q in bearers :: q in p.decls) && r in p.decls
    ensures var before := Resolve(p, bearers);
            Resolve(p, bearers + {r}) == if before != p.id[r] then INVALID_INFO else before
  {
    if r in bearers {
      assert bearers + {r} == bearers;
    } else {
      var q :| q in bearers;
      forall x ensures !IsLone(bearers + {r}, x) {
        assert q in bearers + {r} && r in bearers + {r};
      }
    }
  }

  lemma Refile(p: Program, filed: set<(string, Refl)>, more: set<(string, Refl)>, n: string, r: Refl)
    requires Sound(p) && (forall a | a in filed :: a.1 in p.decls) && r in p.decls
    requires more == if n == "" then filed else filed + {(n, r)}
    ensures NameTable(p, more) == AddName(NameTable(p, filed), n, p.id[r])
  {
    if n != "" {
      FileName(p, filed, n, r);
    }
  }

  // ----- Types -----

  lemma TypesAreNotChildren(p: Program, g: Progress, t: Refl)
    requires Sound(p) && Legal(p, g) && IsType(p, t)
    ensures t in Present(p, g) <==> t in g.known
    ensures t in g.full ==> t in g.known
  {
    if t in ChildrenOfAll(p, g.full) {
      var r :| r in g.full && t in Children(p, r);
      ChildrenOwned(p, r, t);
    }
  }

  lemma AddTypeLegal(p: Program, g: Progress, t: Refl)
    requires Sound(p) && Legal(p, g) && IsType(p, t) && Chain(p, t) <= g.known + {t}
    ensures Legal(p, g.(known := g.known + {t}))
    ensures Present(p, g.(known := g.known + {t})) == Present(p, g) + {t}
  {
  }

  lemma PairsOfOne(n: string, r: Refl)
    ensures Pairs({n}, r) == if n == "" then {} else {(n, r)}
  {
  }

  lemma FiledIn(p: Program, known: set<Refl>, full: set<Refl>)
    requires forall q | q in known + full :: q in p.decls
    ensures forall a | a in Filed(p, known, full) :: a.1 in p.decls
  {
  }

  lemma FiledMore(p: Program, known: set<Refl>, full: set<Refl>, t: Refl)
    requires (forall q | q in known + full :: q in p.decls) && t in p.decls
    ensures Filed(p, known + {t}, full) == Filed(p, known, full) + Pairs({DependencyName(p.decls[t])}, t)
    ensures Filed(p, known, full + {t}) == Filed(p, known, full) + Pairs(CompletionNames(p.decls[t]), t)
  {
  }

  lemma AddTypeFiled(p: Program, g: Progress, t: Refl)
    requires Sound(p) && Legal(p, g) && IsType(p, t)
    ensures NameTable(p, Filed(p, g.known + {t}, g.full))
            == AddName(NameTable(p, Filed(p, g.known, g.full)), DependencyName(p.decls[t]), p.id[t])
  {
    var before, after := Filed(p, g.known, g.full), Filed(p, g.known + {t}, g.full);
    var n := DependencyName(p.decls[t]);
    FiledIn(p, g.known, g.full);
    FiledMore(p, g.known, g.full, t);
    PairsOfOne(n, t);
    assert before + {} == before;
    Refile(p, before, after, n, t);
  }

  /** The state after one more type is stored. */
  function WithType(p: Program, s: State, t: Refl): State
    requires WellFormed(p) && IsType(p, t)
  {
    s.(entities := s.entities[p.id[t] := EntityOf(p, t, false)],
       materialization := s.materialization[p.id[t] :=
         if p.decls[t].PlainType? then FullyMaterialized else DependencyStub],
       names := AddName(s.names, DependencyName(p.decls[t]), p.id[t]))
  }

  /** The one-type step behind ensure_type_dependency. */
  lemma AddType(p: Program, g: Progress, t: Refl)
    requires Sound(p) && Legal(p, g) && IsType(p, t) && t !in g.known
    requires Chain(p, t) <= g.known + {t}
    ensures var g' := g.(known := g.known + {t});
            Legal(p, g') && Canon(p, g') == WithType(p, Canon(p, g), t)
    ensures p.id[t] !in Canon(p, g).entities && p.id[t] !in Canon(p, g).materialization
  {
    TypesAreNotChildren(p, g, t);
    AddTypeLegal(p, g, t);
    EntityInsert(p, Present(p, g), g.full, t);
    MaterializationInsert(p, g.known, g.full, t);
    AddTypeFiled(p, g, t);
  }

  /** The progress after a type dependency has been ensured. */
  function Knowing(g: Progress, ts: set<Refl>): Progress {
    g.(known := g.known + ts)
  }

  lemma EnsureKnown(p: Program, g: Progress, t: Refl)
    requires Sound(p) && Legal(p, g) && IsType(p, t)
    ensures p.id[t] in Canon(p, g).entities <==> t in g.known
  {
    TypesAreNotChildren(p, g, t);
    EntityAbsent(p, Present(p, g), g.full, t);
  }

  lemma EnsureNew(p: Program, g: Progress, t: Refl, g1: Progress)
    requires Sound(p) && Legal(p, g) && IsType(p, t) && t !in g.known
    requires Legal(p, g1) && t !in g1.known && Chain(p, t) <= g1.known + {t}
    requires Canon(p, g1) == if p.decls[t].PlainType? && p.decls[t].target.Some?
                             then (assert DeclWellFormed(p, t); EnsureType(p, Canon(p, g), p.decls[t].target.value))
                             else Canon(p, g)
    ensures Legal(p, Knowing(g1, {t})) && EnsureType(p, Canon(p, g), t) == Canon(p, Knowing(g1, {t}))
  {
    EnsureKnown(p, g, t);
    AddType(p, g1, t);
    EnsureUnfolds(p, Canon(p, g), t, Canon(p, g1));
  }

  lemma EnsureAgain(p: Program, g: Progress, t: Refl)
    requires Sound(p) && Legal(p, g) && IsType(p, t) && t in g.known
    ensures Knowing(g, Chain(p, t)) == g && EnsureType(p, Canon(p, g), t) == Canon(p, g)
  {
    EnsureKnown(p, g, t);
    assert g.known + Chain(p, t) == g.known;
  }

  lemma KnowingChain(p: Program, g: Progress, t: Refl)
    requires WellFormed(p) && IsType(p, t) && p.decls[t].PlainType? && p.decls[t].target.Some?
    ensures IsType(p, p.decls[t].target.value)
    ensures Knowing(Knowing(g, Chain(p, p.decls[t].target.value)), {t}) == Knowing(g, Chain(p, t))
  {
    assert DeclWellFormed(p, t);
    assert g.known + Chain(p, p.decls[t].target.value) + {t} == g.known + Chain(p, t);
  }

  lemma {:induction false} EnsureStep(p: Program, g: Progress, t: Refl)
    requires Sound(p) && Legal(p, g) && IsType(p, t)
    ensures Legal(p, Knowing(g, Chain(p, t)))
    ensures EnsureType(p, Canon(p, g), t) == Canon(p, Knowing(g, Chain(p, t)))
    decreases p.rank[t]
  {
    if t in g.known {
      EnsureAgain(p, g, t);
    } else if p.decls[t].PlainType? && p.decls[t].target.Some? {
      assert DeclWellFormed(p, t);
      var u := p.decls[t].target.value;
      EnsureStep(p, g, u);
      ChainFalls(p, u, t);
      var g1 := Knowing(g, Chain(p, u));
      EnsureNew(p, g, t, g1);
      KnowingChain(p, g, t);
    } else {
      EnsureNew(p, g, t, g);
      assert Chain(p, t) == {t};
    }
  }

  /** ensure_type_dependency on a new type stores it after its target. */
  lemma EnsureUnfolds(p: Program, s: State, t: Refl, s1: State)
    requires WellFormed(p) && IsType(p, t) && p.id[t] !in s.entities
    requires s1 == if p.decls[t].PlainType? && p.decls[t].target.Some?
                   then (assert DeclWellFormed(p, t); EnsureType(p, s, p.decls[t].target.value)) else s
    requires p.id[t] !in s1.entities && p.id[t] !in s1.materialization
    ensures EnsureType(p, s, t) == WithType(p, s1, t)
  {
  }

  lemma {:induction false} ChainFalls(p: Program, u: Refl, t: Refl)
    requires WellFormed(p) && IsType(p, u) && IsType(p, t) && p.rank[u] < p.rank[t]
    ensures t !in Chain(p, u)
    decreases p.rank[u]
  {
    assert DeclWellFormed(p, u);
    if p.decls[u].PlainType? && p.decls[u].target.Some? {
      ChainFalls(p, p.decls[u].target.value, t);
    }
  }

  // ----- Children -----

  /** The progress after some children have been inserted. */
  function Holding(g: Progress, xs: set<Refl>): Progress {
    g.(extra := g.extra + xs)
  }

  lemma ChildIsNew(p: Program, g: Progress, x: Refl)
    requires Sound(p) && Legal(p, g) && IsChild(p, x) && TopOwner(p, x) in g.busy && x !in g.extra
    ensures x !in Present(p, g)
  {
    if x in ChildrenOfAll(p, g.full) {
      var r :| r in g.full && x in Children(p, r);
      ChildrenOwned(p, r, x);
    }
  }

  lemma HoldingLegal(p: Program, g: Progress, x: Refl)
    requires Sound(p) && Legal(p, g) && IsChild(p, x) && TopOwner(p, x) in g.busy
    ensures Legal(p, Holding(g, {x})) && Present(p, Holding(g, {x})) == Present(p, g) + {x}
  {
  }

  /** Inserting a child that is not stored yet. */
  lemma InsertChild(p: Program, g: Progress, x: Refl)
    requires Sound(p) && Legal(p, g) && IsChild(p, x) && TopOwner(p, x) in g.busy && x !in g.extra
    ensures Legal(p, Holding(g, {x}))
    ensures InsertUnique(Canon(p, g), p.id[x], EntityOf(p, x, false))
            == Outcome(Canon(p, Holding(g, {x})), Success)
  {
    ChildIsNew(p, g, x);
    HoldingLegal(p, g, x);
    EntityInsert(p, Present(p, g), g.full, x);
  }

  /** The registration a function's parameters are stored for. */
  function Keeper(p: Program, f: Refl): Refl
    requires WellFormed(p) && f in p.decls && (p.decls[f].FreeFunction? || p.decls[f].FunctionDecl?)
  {
    if p.decls[f].FreeFunction? then f else p.decls[f].owner
  }

  function ParametersOf(p: Program, f: Refl): (ps: seq<Refl>)
    requires WellFormed(p) && f in p.decls && (p.decls[f].FreeFunction? || p.decls[f].FunctionDecl?)
    ensures forall i | 0 <= i < |ps| :: IsParameterOf(p, f, ps[i])
    ensures forall i | 0 <= i < |ps| :: IsChild(p, ps[i]) && TopOwner(p, ps[i]) == Keeper(p, f)
  {
    assert DeclWellFormed(p, f);
    var ps := p.decls[f].signature.parameters;
    assert forall i | 0 <= i < |ps| :: IsParameterOf(p, f, ps[i]);
    ps
  }

  lemma ParametersDistinct(p: Program, f: Refl)
    requires WellFormed(p) && f in p.decls && (p.decls[f].FreeFunction? || p.decls[f].FunctionDecl?)
    ensures Distinct(ParametersOf(p, f))
  {
    assert DeclWellFormed(p, f);
  }

  lemma {:induction false} PositionOfDistinct(rs: seq<Refl>, k: nat)
    requires Distinct(rs) && k < |rs|
    ensures PositionOf(rs, rs[k]) == k
  {
    assert rs[k] in rs;
    var i := PositionOf(rs, rs[k]);
    assert rs[i] == rs[k];
  }

  function WithParameter(p: Program, g: Progress, f: Refl, k: nat): Progress
    requires WellFormed(p) && f in p.decls && (p.decls[f].FreeFunction? || p.decls[f].FunctionDecl?)
    requires k < |ParametersOf(p, f)|
  {
    var q := ParametersOf(p, f)[k];
    assert DeclWellFormed(p, q);
    Holding(Knowing(Knowing(g, Chain(p, p.decls[q].paramType)), Chain(p, p.decls[q].decayedType)), {q})
  }

  lemma ParameterStep(p: Program, g: Progress, f: Refl, k: nat)
    requires Sound(p) && Legal(p, g)
    requires f in p.decls && (p.decls[f].FreeFunction? || p.decls[f].FunctionDecl?) && Keeper(p, f) in g.busy
    requires k < |ParametersOf(p, f)| && ParametersOf(p, f)[k] !in g.extra
    ensures Legal(p, WithParameter(p, g, f, k))
    ensures RegisterParameter(p, Canon(p, g), p.id[f], ParametersOf(p, f)[k], k)
            == Outcome(Canon(p, WithParameter(p, g, f, k)), Success)
  {
    var ps := ParametersOf(p, f);
    var q := ps[k];
    assert DeclWellFormed(p, q);
    EnsureStep(p, g, p.decls[q].paramType);
    var g1 := Knowing(g, Chain(p, p.decls[q].paramType));
    EnsureStep(p, g1, p.decls[q].decayedType);
    var g2 := Knowing(g1, Chain(p, p.decls[q].decayedType));
    InsertChild(p, g2, q);
    ParametersDistinct(p, f);
    PositionOfDistinct(ps, k);
  }

  /** The progress after the first k parameters. */
  function AfterParameters(p: Program, g: Progress, f: Refl, k: nat): Progress
    requires WellFormed(p) && f in p.decls && (p.decls[f].FreeFunction? || p.decls[f].FunctionDecl?)
    requires k <= |ParametersOf(p, f)|
  {
    Holding(Knowing(g, ParameterNeeds(p, ParametersOf(p, f), k)), Elements(ParametersOf(p, f), k))
  }

  lemma ElementsGrow(rs: seq<Refl>, k: nat)
    requires k < |rs|
    ensures Elements(rs, k + 1) == Elements(rs, k) + {rs[k]}
    ensures Distinct(rs) ==> rs[k] !in Elements(rs, k)
  {
  }

  lemma AfterParametersNext(p: Program, g: Progress, f: Refl, k: nat)
    requires WellFormed(p) && f in p.decls && (p.decls[f].FreeFunction? || p.decls[f].FunctionDecl?)
    requires k < |ParametersOf(p, f)|
    ensures WithParameter(p, AfterParameters(p, g, f, k), f, k) == AfterParameters(p, g, f, k + 1)
  {
    var ps := ParametersOf(p, f);
    assert DeclWellFormed(p, ps[k]);
    ElementsGrow(ps, k);
    var l, r := WithParameter(p, AfterParameters(p, g, f, k), f, k), AfterParameters(p, g, f, k + 1);
    assert l.known == r.known;
    assert l.extra == r.extra;
  }

  lemma ParametersUnfold(p: Program, s: State, f: Refl, ps: seq<Refl>, k: nat, s1: State)
    requires WellFormed(p) && f in p.decls && k < |ps|
    requires (forall i | 0 <= i < |ps| :: IsParameterOf(p, f, ps[i])) && IsParameterOf(p, f, ps[k])
    requires RegisterParameter(p, s, p.id[f], ps[k], k) == Outcome(s1, Success)
    ensures RegisterParameters(p, s, f, ps, k) == RegisterParameters(p, s1, f, ps, k + 1)
  {
  }

  /** One parameter takes the progress after k of them to that after k + 1. */
  lemma ParameterTurn(p: Program, g: Progress, f: Refl, k: nat)
    requires Sound(p)
    requires f in p.decls && (p.decls[f].FreeFunction? || p.decls[f].FunctionDecl?) && Keeper(p, f) in g.busy
    requires k < |ParametersOf(p, f)| && Legal(p, AfterParameters(p, g, f, k))
    requires ParametersOf(p, f)[k] !in g.extra
    ensures Legal(p, AfterParameters(p, g, f, k + 1))
    ensures RegisterParameters(p, Canon(p, AfterParameters(p, g, f, k)), f, ParametersOf(p, f), k)
         == RegisterParameters(p, Canon(p, AfterParameters(p, g, f, k + 1)), f, ParametersOf(p, f), k + 1)
  {
    var now, next := AfterParameters(p, g, f, k), AfterParameters(p, g, f, k + 1);
    ParametersDistinct(p, f);
    ElementsGrow(ParametersOf(p, f), k);
    ParameterStep(p, now, f, k);
    AfterParametersNext(p, g, f, k);
    ParametersUnfold(p, Canon(p, now), f, ParametersOf(p, f), k, Canon(p, next));
  }

  lemma ParametersEnd(p: Program, s: State, f: Refl)
    requires WellFormed(p) && f in p.decls && (p.decls[f].FreeFunction? || p.decls[f].FunctionDecl?)
    ensures RegisterParameters(p, s, f, ParametersOf(p, f), |ParametersOf(p, f)|) == Outcome(s, Success)
  {
    assert DeclWellFormed(p, f);
  }

  lemma {:induction false} ParametersFrom(p: Program, g: Progress, f: Refl, k: nat)
    requires Sound(p)
    requires f in p.decls && (p.decls[f].FreeFunction? || p.decls[f].FunctionDecl?) && Keeper(p, f) in g.busy
    requires k <= |ParametersOf(p, f)| && Legal(p, AfterParameters(p, g, f, k))
    requires forall i | 0 <= i < |ParametersOf(p, f)| :: ParametersOf(p, f)[i] !in g.extra
    ensures Legal(p, AfterParameters(p, g, f, |ParametersOf(p, f)|))
    ensures RegisterParameters(p, Canon(p, AfterParameters(p, g, f, k)), f, ParametersOf(p, f), k)
            == Outcome(Canon(p, AfterParameters(p, g, f, |ParametersOf(p, f)|)), Success)
    decreases |ParametersOf(p, f)| - k
  {
    if k == |ParametersOf(p, f)| {
      ParametersEnd(p, Canon(p, AfterParameters(p, g, f, k)), f);
    } else {
      ParameterTurn(p, g, f, k);
      ParametersFrom(p, g, f, k + 1);
    }
  }

  function AfterSignature(p: Program, g: Progress, f: Refl): Progress
    requires WellFormed(p) && f in p.decls && (p.decls[f].FreeFunction? || p.decls[f].FunctionDecl?)
  {
    Holding(Knowing(g, SignatureNeeds(p, f)), Elements(ParametersOf(p, f), |ParametersOf(p, f)|))
  }

  function ReturnNeeds(p: Program, f: Refl): set<Refl>
    requires WellFormed(p) && f in p.decls && (p.decls[f].FreeFunction? || p.decls[f].FunctionDecl?)
  {
    assert DeclWellFormed(p, f);
    var ret := p.decls[f].signature.returnType;
    if ret.Some? then Chain(p, ret.value) else {}
  }

  lemma SignatureProgress(p: Program, g: Progress, f: Refl)
    requires WellFormed(p) && f in p.decls && (p.decls[f].FreeFunction? || p.decls[f].FunctionDecl?)
    ensures AfterParameters(p, Knowing(g, ReturnNeeds(p, f)), f, 0) == Knowing(g, ReturnNeeds(p, f))
    ensures AfterParameters(p, Knowing(g, ReturnNeeds(p, f)), f, |ParametersOf(p, f)|) == AfterSignature(p, g, f)
  {
    var g1, n := Knowing(g, ReturnNeeds(p, f)), |ParametersOf(p, f)|;
    assert AfterParameters(p, g1, f, 0).extra == g1.extra;
    assert AfterParameters(p, g1, f, n).known == AfterSignature(p, g, f).known;
  }

  lemma SignatureUnfolds(p: Program, s: State, f: Refl, s1: State)
    requires WellFormed(p) && f in p.decls && (p.decls[f].FreeFunction? || p.decls[f].FunctionDecl?)
    requires DeclWellFormed(p, f)
    requires s1 == if p.decls[f].signature.returnType.Some?
                   then EnsureType(p, s, p.decls[f].signature.returnType.value) else s
    ensures RegisterSignature(p, s, f) == RegisterParameters(p, s1, f, ParametersOf(p, f), 0)
  {
  }

  /** Ensuring the return type, when there is one. */
  lemma ReturnEnsured(p: Program, g: Progress, f: Refl, ret: Option<Refl>)
    requires Sound(p) && Legal(p, g)
    requires f in p.decls && (p.decls[f].FreeFunction? || p.decls[f].FunctionDecl?)
    requires ret == p.decls[f].signature.returnType && (ret.Some? ==> IsType(p, ret.value))
    ensures Legal(p, Knowing(g, ReturnNeeds(p, f)))
    ensures Canon(p, Knowing(g, ReturnNeeds(p, f)))
            == if ret.Some? then EnsureType(p, Canon(p, g), ret.value) else Canon(p, g)
  {
    if ret.Some? {
      EnsureStep(p, g, ret.value);
    } else {
      assert Knowing(g, {}) == g;
    }
  }

  lemma ReturnStep(p: Program, g: Progress, f: Refl)
    requires Sound(p) && Legal(p, g)
    requires f in p.decls && (p.decls[f].FreeFunction? || p.decls[f].FunctionDecl?)
    ensures Legal(p, Knowing(g, ReturnNeeds(p, f)))
    ensures RegisterSignature(p, Canon(p, g), f)
            == RegisterParameters(p, Canon(p, Knowing(g, ReturnNeeds(p, f))), f, ParametersOf(p, f), 0)
  {
    assert DeclWellFormed(p, f);
    ReturnEnsured(p, g, f, p.decls[f].signature.returnType);
    SignatureUnfolds(p, Canon(p, g), f, Canon(p, Knowing(g, ReturnNeeds(p, f))));
  }

  /** register_function_signature stores the return type and every parameter. */
  lemma SignatureStep(p: Program, g: Progress, f: Refl)
    requires Sound(p) && Legal(p, g)
    requires f in p.decls && (p.decls[f].FreeFunction? || p.decls[f].FunctionDecl?) && Keeper(p, f) in g.busy
    requires forall i | 0 <= i < |ParametersOf(p, f)| :: ParametersOf(p, f)[i] !in g.extra
    ensures Legal(p, AfterSignature(p, g, f))
    ensures RegisterSignature(p, Canon(p, g), f) == Outcome(Canon(p, AfterSignature(p, g, f)), Success)
  {
    ReturnStep(p, g, f);
    SignatureProgress(p, g, f);
    ParametersFrom(p, Knowing(g, ReturnNeeds(p, f)), f, 0);
  }
}
