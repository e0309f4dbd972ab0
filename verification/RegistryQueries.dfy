/** What the other components may rely on in a registry built at run time. */
module RegistryQueries {
  import opened Core
  import opened ClassMetadata
  import opened Entities
  import opened RegistrySpec
  import opened RegistryCanon
  import opened RegistryOrder
  import opened RegistryRuns
  import opened RegistryTheorems
  import BaseAdjustment
  import ConstructorLookup

  /** The rank of the class an id stands for. */
  ghost function RankOf(p: Program, id: Info): nat
    requires WellFormed(p)
  {
    if exists r :: r in p.decls && p.id[r] == id then p.rank[ReflOf(p, id)] else 0
  }

  lemma RankOfRefl(p: Program, r: Refl)
    requires Sound(p) && r in p.decls
    ensures RankOf(p, p.id[r]) == p.rank[r]
  {
    ReflOfId(p, r);
  }

  /** A stored class with bases is a completed class. */
  lemma ClassBehind(p: Program, g: Progress, c: Info) returns (r: Refl)
    requires Sound(p) && Legal(p, g) && BaseAdjustment.BasesOf(Canon(p, g).entities, c) != []
    ensures r in g.full && p.decls[r].ClassType? && p.id[r] == c
    ensures forall i | 0 <= i < |p.decls[r].bases| :: p.decls[r].bases[i] in p.decls
    ensures BaseAdjustment.BasesOf(Canon(p, g).entities, c) == IdsOf(p, p.decls[r].bases)
  {
    assert c in Images(p, Present(p, g));
    r :| r in Present(p, g) && p.id[r] == c;
    Stored(p, g, r);
    assert DeclWellFormed(p, r);
    assert forall i | 0 <= i < |p.decls[r].bases| :: IsBaseOf(p, r, p.decls[r].bases[i]);
  }

  lemma BaseTypeStored(p: Program, g: Progress, r: Refl, k: nat)
    requires Sound(p) && Legal(p, g) && r in g.full && p.decls[r].ClassType? && k < |p.decls[r].bases|
    ensures IsBaseOf(p, r, p.decls[r].bases[k])
    ensures p.id[p.decls[r].bases[k]] in Canon(p, g).entities
    ensures var b := Canon(p, g).entities[p.id[p.decls[r].bases[k]]];
            b.BaseEntity? && b.typeId == p.id[BaseTypeAt(p, r, k)]
  {
    BasePresent(p, g, r, k);
    Stored(p, g, p.decls[r].bases[k]);
    BaseEntityOf(p, p.decls[r].bases[k], p.decls[r].bases[k] in g.full);
  }

  lemma EdgeLowersRank(p: Program, g: Progress, c: Info, k: nat)
    requires Sound(p) && Legal(p, g)
    requires k < |BaseAdjustment.BasesOf(Canon(p, g).entities, c)|
    requires BaseAdjustment.Accessible(Canon(p, g).entities, BaseAdjustment.BasesOf(Canon(p, g).entities, c)[k])
    ensures RankOf(p, Canon(p, g).entities[BaseAdjustment.BasesOf(Canon(p, g).entities, c)[k]].typeId) < RankOf(p, c)
  {
    var r := ClassBehind(p, g, c);
    BaseTypeStored(p, g, r, k);
    RankOfRefl(p, r);
    RankOfRefl(p, BaseTypeAt(p, r, k));
  }

  /** Every registry built by registrations is acyclic, so base adjustment is
      defined on it. */
  lemma RunsAreAcyclic(p: Program, rs: seq<Refl>)
    requires Sound(p) && AllTopLevel(p, Roots(rs))
    ensures BaseAdjustment.Acyclic(Run(p, EMPTY, Registrations(rs)).state.entities, id => RankOf(p, id))
  {
    RunIsCanonical(p, rs);
    var g := Reached(p, Roots(rs));
    var reg := Canon(p, g).entities;
    forall c, i | 0 <= i < |BaseAdjustment.BasesOf(reg, c)|
                  && BaseAdjustment.Accessible(reg, BaseAdjustment.BasesOf(reg, c)[i])
      ensures RankOf(p, reg[BaseAdjustment.BasesOf(reg, c)[i]].typeId) < RankOf(p, c)
    {
      EdgeLowersRank(p, g, c, i);
    }
  }

  lemma OnlyConstructorsAccept(p: Program, g: Progress, c: Refl, k: nat, expected: seq<Info>)
    requires Sound(p) && Legal(p, g) && c in g.full && p.decls[c].ClassType? && k < |p.decls[c].members|
    requires Included(MemberOf(p, MemberAt(p, c, k)))
    requires ConstructorLookup.AcceptsRuntime(Canon(p, g).entities, p.id[MemberAt(p, c, k)], expected)
    ensures OfKind(MemberOf(p, MemberAt(p, c, k)), Constructor)
  {
    var m := MemberAt(p, c, k);
    if IsType(p, m) {
      EnsureKnown(p, g, m);
      KnownTypeStored(p, g, m);
    } else {
      MemberOfKindStored(p, g, c, k);
    }
  }

  /** In a registry built at run time, scanning the members of a registered class
      and scanning its constructors find the same constructor. */
  lemma SameConstructor(p: Program, g: Progress, c: Refl, expected: seq<Info>)
    requires Sound(p) && Legal(p, g) && c in g.full && p.decls[c].ClassType?
    ensures p.id[c] in Canon(p, g).entities && Canon(p, g).entities[p.id[c]].ClassEntity?
    ensures var reg := Canon(p, g).entities;
            var lists, test := reg[p.id[c]].lists, ConstructorLookup.RuntimeTest(reg, expected);
            ConstructorLookup.FirstPassing(lists.members, test)
            == ConstructorLookup.FirstPassing(lists.constructors, test)
  {
    FullClassStored(p, g, c);
    var ms := MembersOf(p, c);
    var test := ConstructorLookup.RuntimeTest(Canon(p, g).entities, expected);
    forall k | 0 <= k < |ms| && Included(ms[k]) && test(ms[k].id) ensures OfKind(ms[k], Constructor) {
      assert ms[k] == MemberOf(p, MemberAt(p, c, k));
      OnlyConstructorsAccept(p, g, c, k, expected);
    }
    ConstructorLookup.SameConstructorFound(ms, test);
  }
}
