/** Base adjustment in a registry that a run of registrations has built, in terms of the
    declarations: which bases carry an adjustment, which one, and where paths through
    them lead. */
module InheritanceQueries {
  import opened Core
  import opened ClassMetadata
  import opened Entities
  import opened RegistrySpec
  import opened RegistryCanon
  import opened RegistryOrder
  import opened RegistryRuns
  import opened RegistryTheorems
  import opened RegistryQueries
  import LifecycleQueries
  import BaseAdjustment
  import StoredEntities

  // ----- The bases of a completed class -----

  /** A base carries an adjustment exactly when it is public and the compiler gives one,
      and then it is that one. */
  ghost predicate CarriesAdjustment(p: Program, reg: BaseAdjustment.Store, b: Refl)
    requires b in p.id && b in p.decls && p.decls[b].BaseDecl?
  {
    var id := p.id[b];
    && (BaseAdjustment.Accessible(reg, id) <==> p.decls[b].access.Public? && p.decls[b].upcast.Some?)
    && (BaseAdjustment.Accessible(reg, id) ==>
          && reg[id].upcast == p.decls[b].upcast
          && p.decls[b].baseType in p.id && reg[id].typeId == p.id[p.decls[b].baseType])
  }

  lemma BaseAccess(p: Program, g: Progress, c: Refl, k: nat)
    requires Sound(p) && Legal(p, g) && c in g.full && p.decls[c].ClassType? && k < |p.decls[c].bases|
    ensures IsBaseOf(p, c, p.decls[c].bases[k])
    ensures CarriesAdjustment(p, Canon(p, g).entities, p.decls[c].bases[k])
  {
    BasePresent(p, g, c, k);
    Stored(p, g, p.decls[c].bases[k]);
    BaseEntityOf(p, p.decls[c].bases[k], p.decls[c].bases[k] in g.full);
  }

  /** What adjusting through such a base does. */
  lemma AdjustedBy(p: Program, rs: seq<Refl>, c: Refl, k: nat, x: Address)
    requires Sound(p) && AllTopLevel(p, Roots(rs)) && c in Reached(p, Roots(rs)).full && c in p.decls
    requires p.decls[c].ClassType? && k < |p.decls[c].bases|
    ensures var b, reg := p.decls[c].bases[k], LifecycleQueries.Built(p, rs).entities;
            && IsBaseOf(p, c, b)
            && (BaseAdjustment.Accessible(reg, p.id[b]) <==> p.decls[b].access.Public? && p.decls[b].upcast.Some?)
            && (BaseAdjustment.Accessible(reg, p.id[b]) ==>
                  BaseAdjustment.Upcasted(reg, p.id[b], x) == (p.decls[b].upcast.value)(x))
  {
    RunIsCanonical(p, rs);
    BaseAccess(p, Reached(p, Roots(rs)), c, k);
  }

  /** A completed class lists its declared bases, in their order. */
  lemma ListedBases(p: Program, g: Progress, c: Refl)
    requires Sound(p) && Legal(p, g) && c in g.full && p.decls[c].ClassType?
    ensures forall k | 0 <= k < |p.decls[c].bases| :: p.decls[c].bases[k] in p.id
    ensures var ids := BaseAdjustment.BasesOf(Canon(p, g).entities, p.id[c]);
            |ids| == |p.decls[c].bases|
            && forall k | 0 <= k < |ids| :: ids[k] == p.id[p.decls[c].bases[k]]
  {
    FullClassStored(p, g, c);
    assert DeclWellFormed(p, c);
    assert forall k | 0 <= k < |p.decls[c].bases| :: IsBaseOf(p, c, p.decls[c].bases[k]);
  }

  // ----- Paths of declarations -----

  /** Where a path of public bases leads from an object of class c. */
  ghost function FollowDeclared(p: Program, c: Refl, x: Address, path: seq<Refl>): Option<(Refl, Address)>
    decreases |path|
  {
    if path == [] then Some((c, x))
    else
      var b := path[0];
      if && c in p.decls && p.decls[c].ClassType? && b in p.decls[c].bases && b in p.decls && p.decls[b].BaseDecl?
         && p.decls[b].access.Public? && p.decls[b].upcast.Some? && (p.decls[b].upcast.value)(x) != NULL
      then FollowDeclared(p, p.decls[b].baseType, (p.decls[b].upcast.value)(x), path[1..])
      else None
  }

  ghost predicate LeadsDeclared(p: Program, c: Refl, x: Address, t: Refl, y: Address) {
    exists path :: FollowDeclared(p, c, x, path) == Some((t, y))
  }

  function IdPath(p: Program, path: seq<Refl>): (ids: seq<Info>)
    ensures |ids| == |path|
  {
    seq(|path|, i requires 0 <= i < |path| => if path[i] in p.id then p.id[path[i]] else INVALID_INFO)
  }

  /** A stored base says what its declaration says. */
  ghost predicate MirrorsBase(p: Program, full: set<Refl>, reg: BaseAdjustment.Store, c: Refl, b: Refl)
    requires c in p.id
  {
    && b in p.decls && p.decls[b].BaseDecl? && b in p.id
    && p.decls[b].baseType in full && p.decls[b].baseType in p.decls && p.decls[p.decls[b].baseType].ClassType?
    && p.id[b] in BaseAdjustment.BasesOf(reg, p.id[c]) && CarriesAdjustment(p, reg, b)
  }

  ghost predicate Declared(p: Program, c: Refl, id: Info)
    requires c in p.decls && p.decls[c].ClassType?
  {
    exists b :: b in p.decls[c].bases && b in p.id && p.id[b] == id
  }

  /** The bases of every completed class do, and there are no others. */
  ghost predicate Mirrors(p: Program, full: set<Refl>, reg: BaseAdjustment.Store) {
    forall c | c in full && c in p.decls && p.decls[c].ClassType? ::
      && c in p.id
      && (forall b | b in p.decls[c].bases :: MirrorsBase(p, full, reg, c, b))
      && (forall id | id in BaseAdjustment.BasesOf(reg, p.id[c]) :: Declared(p, c, id))
  }

  lemma RegistryMirrors(p: Program, g: Progress)
    requires Sound(p) && Legal(p, g)
    ensures Mirrors(p, g.full, Canon(p, g).entities)
  {
    var reg := Canon(p, g).entities;
    forall c | c in g.full && c in p.decls && p.decls[c].ClassType?
      ensures c in p.id
      ensures forall b | b in p.decls[c].bases :: MirrorsBase(p, g.full, reg, c, b)
      ensures forall id | id in BaseAdjustment.BasesOf(reg, p.id[c]) :: Declared(p, c, id)
    {
      ClassMirrors(p, g, c);
    }
  }

  lemma ClassMirrors(p: Program, g: Progress, c: Refl)
    requires Sound(p) && Legal(p, g) && c in g.full && p.decls[c].ClassType?
    ensures forall b | b in p.decls[c].bases :: MirrorsBase(p, g.full, Canon(p, g).entities, c, b)
    ensures forall id | id in BaseAdjustment.BasesOf(Canon(p, g).entities, p.id[c]) :: Declared(p, c, id)
  {
    var bs, ids := p.decls[c].bases, BaseAdjustment.BasesOf(Canon(p, g).entities, p.id[c]);
    ListedBases(p, g, c);
    forall b | b in bs ensures MirrorsBase(p, g.full, Canon(p, g).entities, c, b) {
      var k :| 0 <= k < |bs| && bs[k] == b;
      BaseMirrors(p, g, c, k);
    }
    forall id | id in ids ensures Declared(p, c, id) {
      var k :| 0 <= k < |ids| && ids[k] == id;
      assert bs[k] in bs && p.id[bs[k]] == id;
    }
  }

  lemma BaseMirrors(p: Program, g: Progress, c: Refl, k: nat)
    requires Sound(p) && Legal(p, g) && c in g.full && p.decls[c].ClassType? && k < |p.decls[c].bases|
    ensures MirrorsBase(p, g.full, Canon(p, g).entities, c, p.decls[c].bases[k])
  {
    BaseAccess(p, g, c, k);
    StoredEntities.BaseClassFull(p, g, c, k);
    ListedBases(p, g, c);
    assert BaseAdjustment.BasesOf(Canon(p, g).entities, p.id[c])[k] == p.id[p.decls[c].bases[k]];
  }

  lemma {:induction false} FollowForth(p: Program, full: set<Refl>, reg: BaseAdjustment.Store, c: Refl, x: Address,
                                       path: seq<Refl>)
    requires Mirrors(p, full, reg) && c in full && c in p.decls && p.decls[c].ClassType? && c in p.id
    requires FollowDeclared(p, c, x, path).Some?
    ensures var (t, y) := FollowDeclared(p, c, x, path).value;
            && t in p.id
            && BaseAdjustment.Follow(reg, BaseAdjustment.Place(p.id[c], x), IdPath(p, path))
               == Some(BaseAdjustment.Place(p.id[t], y))
    decreases |path|
  {
    if path != [] {
      var b := path[0];
      assert MirrorsBase(p, full, reg, c, b);
      FollowForth(p, full, reg, p.decls[b].baseType, (p.decls[b].upcast.value)(x), path[1..]);
      assert IdPath(p, path)[1..] == IdPath(p, path[1..]);
    }
  }

  lemma {:induction false} FollowBack(p: Program, full: set<Refl>, reg: BaseAdjustment.Store, c: Refl, x: Address,
                                      ids: seq<Info>) returns (t: Refl, y: Address)
    requires Mirrors(p, full, reg) && c in full && c in p.decls && p.decls[c].ClassType? && c in p.id
    requires BaseAdjustment.Follow(reg, BaseAdjustment.Place(p.id[c], x), ids).Some?
    ensures t in p.id && LeadsDeclared(p, c, x, t, y)
    ensures BaseAdjustment.Follow(reg, BaseAdjustment.Place(p.id[c], x), ids)
         == Some(BaseAdjustment.Place(p.id[t], y))
    decreases |ids|
  {
    if ids == [] {
      t, y := c, x;
      assert FollowDeclared(p, c, x, []) == Some((c, x));
    } else {
      assert Declared(p, c, ids[0]);
      var b :| b in p.decls[c].bases && b in p.id && p.id[b] == ids[0];
      assert MirrorsBase(p, full, reg, c, b);
      var next, address := p.decls[b].baseType, (p.decls[b].upcast.value)(x);
      t, y := FollowBack(p, full, reg, next, address, ids[1..]);
      var path :| FollowDeclared(p, next, address, path) == Some((t, y));
      assert ([b] + path)[1..] == path;
      assert FollowDeclared(p, c, x, [b] + path) == Some((t, y));
    }
  }

  /** The registry's paths lead where the declared ones lead. */
  lemma LeadsAsDeclared(p: Program, full: set<Refl>, reg: BaseAdjustment.Store, c: Refl, x: Address, t: Refl,
                        y: Address)
    requires p.id.Keys == p.decls.Keys && CollisionFree(p) && Mirrors(p, full, reg)
    requires c in full && c in p.decls && p.decls[c].ClassType? && t in p.decls
    ensures BaseAdjustment.Leads(reg, BaseAdjustment.Place(p.id[c], x), BaseAdjustment.Place(p.id[t], y))
            <==> LeadsDeclared(p, c, x, t, y)
  {
    var from := BaseAdjustment.Place(p.id[c], x);
    if path :| FollowDeclared(p, c, x, path) == Some((t, y)) {
      FollowForth(p, full, reg, c, x, path);
      assert BaseAdjustment.Follow(reg, from, IdPath(p, path)) == Some(BaseAdjustment.Place(p.id[t], y));
    }
    if ids :| BaseAdjustment.Follow(reg, from, ids) == Some(BaseAdjustment.Place(p.id[t], y)) {
      var u, z := FollowBack(p, full, reg, c, x, ids);
      assert p.id[u] == p.id[t] && z == y;
    }
  }

  lemma AddressesAsDeclared(p: Program, full: set<Refl>, reg: BaseAdjustment.Store, c: Refl, t: Refl, x: Address)
    requires p.id.Keys == p.decls.Keys && CollisionFree(p) && Mirrors(p, full, reg)
    requires c in full && c in p.decls && p.decls[c].ClassType? && t in p.decls
    ensures BaseAdjustment.AddressesFrom(reg, BaseAdjustment.Place(p.id[c], x), p.id[t])
         == iset y | LeadsDeclared(p, c, x, t, y)
  {
    var from := BaseAdjustment.Place(p.id[c], x);
    forall y ensures y in BaseAdjustment.AddressesFrom(reg, from, p.id[t]) <==> LeadsDeclared(p, c, x, t, y) {
      LeadsAsDeclared(p, full, reg, c, x, t, y);
    }
  }

  lemma AdjustmentIs(p: Program, rs: seq<Refl>, reg: BaseAdjustment.Store, c: Info, t: Info, x: Address, y: Address)
    requires Sound(p) && AllTopLevel(p, Roots(rs)) && reg == LifecycleQueries.Built(p, rs).entities && x != NULL
    ensures BaseAdjustment.Adjustment(reg, c, t, x) == BaseAdjustment.Found(y)
            <==> BaseAdjustment.AddressesFrom(reg, BaseAdjustment.Place(c, x), t) == iset{y}
  {
    RunsAreAcyclic(p, rs);
    BaseAdjustment.AdjustmentOverAllPaths(reg, id => RankOf(p, id), c, t, x, y);
  }

  /** After any run, adjusting a non-null pointer from a registered class to another one
      finds an address exactly when the paths of public bases that the program declares
      lead to it and to no other. */
  lemma AdjustmentAsDeclared(p: Program, rs: seq<Refl>, c: Refl, t: Refl, x: Address, y: Address)
    requires Sound(p) && AllTopLevel(p, Roots(rs)) && t in p.decls && x != NULL
    requires c in Reached(p, Roots(rs)).full && c in p.decls && p.decls[c].ClassType?
    ensures BaseAdjustment.Adjustment(LifecycleQueries.Built(p, rs).entities, p.id[c], p.id[t], x)
            == BaseAdjustment.Found(y)
            <==> (iset z | LeadsDeclared(p, c, x, t, z)) == iset{y}
  {
    RunIsCanonical(p, rs);
    var reg := LifecycleQueries.Built(p, rs).entities;
    RegistryMirrors(p, Reached(p, Roots(rs)));
    AddressesAsDeclared(p, Reached(p, Roots(rs)).full, reg, c, t, x);
    AdjustmentIs(p, rs, reg, p.id[c], p.id[t], x, y);
  }
}
