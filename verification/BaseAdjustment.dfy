/** Adjusting an instance pointer from a class to one of its bases: an early-exit
    depth-first search over the inheritance graph, in both registries. */
module BaseAdjustment {
  import opened Core
  import opened ClassMetadata
  import opened Entities

  type Store = map<Info, Entity>

  /** The base list of a stored class. */
  function BasesOf(reg: Store, c: Info): seq<Info> {
    if c in reg && reg[c].ClassEntity? then reg[c].lists.bases else []
  }

  /** b is a stored base subobject that can be reached at run time. */
  predicate Accessible(reg: Store, b: Info) {
    b in reg && reg[b].BaseEntity? && reg[b].upcast.Some?
  }

  function Upcasted(reg: Store, b: Info, instance: Address): Address
    requires Accessible(reg, b)
  {
    (reg[b].upcast.value)(instance)
  }

  /** Inheritance is acyclic: every edge lowers the rank. */
  ghost predicate Acyclic(reg: Store, rank: Info -> nat) {
    forall c, i | 0 <= i < |BasesOf(reg, c)| && Accessible(reg, BasesOf(reg, c)[i]) ::
      rank(reg[BasesOf(reg, c)[i]].typeId) < rank(c)
  }

  // ----- Paths -----

  datatype Place = Place(classId: Info, address: Address)

  /** Where a path of base subobjects leads; no step may yield a null pointer. */
  ghost function Follow(reg: Store, from: Place, path: seq<Info>): Option<Place>
    decreases |path|
  {
    if path == [] then Some(from)
    else
      var b := path[0];
      if b in BasesOf(reg, from.classId) && Accessible(reg, b) && Upcasted(reg, b, from.address) != NULL
      then Follow(reg, Place(reg[b].typeId, Upcasted(reg, b, from.address)), path[1..])
      else None
  }

  /** Some path of at least one base leads from one place to the other. */
  ghost predicate Reaches(reg: Store, from: Place, to: Place) {
    exists path :: path != [] && Follow(reg, from, path) == Some(to)
  }

  /** The only address at which the target class can be found. */
  ghost predicate OnlyAddress(reg: Store, from: Place, target: Info, a: Address) {
    Reaches(reg, from, Place(target, a))
    && forall b | Reaches(reg, from, Place(target, b)) :: b == a
  }

  datatype Adjusted = Found(address: Address) | Failed(error: Error)

  /** What adjust_instance_pointer should answer, in terms of all paths. */
  ghost function Adjustment(reg: Store, actual: Info, target: Info, instance: Address): Adjusted {
    if instance == NULL then Failed(NullValue)
    else if actual == target then Found(instance)
    else if a :| OnlyAddress(reg, Place(actual, instance), target, a) then Found(a)
    else Failed(InvalidArgumentType)
  }

  // ----- The search -----

  /** Reaching a place through one particular base. */
  ghost predicate Via(reg: Store, from: Place, b: Info, to: Place) {
    && Accessible(reg, b) && Upcasted(reg, b, from.address) != NULL
    && var next := Place(reg[b].typeId, Upcasted(reg, b, from.address));
       next == to || Reaches(reg, next, to)
  }

  lemma ReachesVia(reg: Store, from: Place, to: Place)
    ensures Reaches(reg, from, to) <==> exists b :: b in BasesOf(reg, from.classId) && Via(reg, from, b, to)
  {
    if Reaches(reg, from, to) {
      var path :| path != [] && Follow(reg, from, path) == Some(to);
      var next := Place(reg[path[0]].typeId, Upcasted(reg, path[0], from.address));
      assert Follow(reg, next, path[1..]) == Some(to);
      if path[1..] == [] {
        assert Follow(reg, next, []) == Some(next);
      }
      assert Via(reg, from, path[0], to);
    }
    if b :| b in BasesOf(reg, from.classId) && Via(reg, from, b, to) {
      var next := Place(reg[b].typeId, Upcasted(reg, b, from.address));
      var rest := [];
      if next != to {
        rest :| rest != [] && Follow(reg, next, rest) == Some(to);
      }
      var path := [b] + rest;
      assert path[1..] == rest;
      assert Follow(reg, from, path) == Some(to);
    }
  }

  lemma {:induction false} FollowLowersRank(reg: Store, rank: Info -> nat, from: Place, path: seq<Info>)
    requires Acyclic(reg, rank) && path != [] && Follow(reg, from, path).Some?
    ensures rank(Follow(reg, from, path).value.classId) < rank(from.classId)
    ensures Follow(reg, from, path).value.address != NULL
    decreases |path|
  {
    var b := path[0];
    var i :| 0 <= i < |BasesOf(reg, from.classId)| && BasesOf(reg, from.classId)[i] == b;
    assert rank(reg[BasesOf(reg, from.classId)[i]].typeId) < rank(from.classId);
    if |path| > 1 {
      FollowLowersRank(reg, rank, Place(reg[b].typeId, Upcasted(reg, b, from.address)), path[1..]);
    }
  }

  lemma ReachesLowersRank(reg: Store, rank: Info -> nat, from: Place, to: Place)
    requires Acyclic(reg, rank) && Reaches(reg, from, to)
    ensures rank(to.classId) < rank(from.classId) && to.address != NULL
  {
    var path :| path != [] && Follow(reg, from, path) == Some(to);
    FollowLowersRank(reg, rank, from, path);
  }

  /** The addresses seen so far: none, exactly the candidate, or at least two. */
  ghost predicate Summarises(candidate: Address, found: bool, ambiguous: bool, seen: iset<Address>) {
    && (ambiguous ==> exists a, b :: a in seen && b in seen && a != b)
    && (!ambiguous && found ==> seen == iset{candidate})
    && (!ambiguous && !found ==> seen == iset{})
  }

  ghost function AddressesVia(reg: Store, from: Place, b: Info, target: Info): iset<Address> {
    iset a | Via(reg, from, b, Place(target, a))
  }

  ghost function AddressesOf(reg: Store, from: Place, target: Info): iset<Address> {
    iset a | Reaches(reg, from, Place(target, a))
  }

  ghost function AddressesUpTo(reg: Store, from: Place, target: Info, k: nat): iset<Address>
    requires k <= |BasesOf(reg, from.classId)|
  {
    iset i, a | 0 <= i < k && a in AddressesVia(reg, from, BasesOf(reg, from.classId)[i], target) :: a
  }

  lemma AddressesNext(reg: Store, from: Place, target: Info, k: nat)
    requires k < |BasesOf(reg, from.classId)|
    ensures AddressesUpTo(reg, from, target, k + 1)
            == AddressesUpTo(reg, from, target, k) + AddressesVia(reg, from, BasesOf(reg, from.classId)[k], target)
  {
  }

  lemma AddressesAll(reg: Store, from: Place, target: Info)
    ensures AddressesUpTo(reg, from, target, |BasesOf(reg, from.classId)|) == AddressesOf(reg, from, target)
  {
    var bases := BasesOf(reg, from.classId);
    forall a ensures a in AddressesOf(reg, from, target) <==> a in AddressesUpTo(reg, from, target, |bases|) {
      ReachesVia(reg, from, Place(target, a));
      if b :| b in bases && Via(reg, from, b, Place(target, a)) {
        var i :| 0 <= i < |bases| && bases[i] == b;
        assert a in AddressesVia(reg, from, bases[i], target);
      }
    }
  }

  /** A base of the target's own type contributes one address: nothing below the
      target class can be the target class again. */
  lemma TargetBase(reg: Store, rank: Info -> nat, from: Place, b: Info, target: Info)
    requires Acyclic(reg, rank) && Accessible(reg, b) && Upcasted(reg, b, from.address) != NULL
    ensures reg[b].typeId == target ==> AddressesVia(reg, from, b, target) == iset{Upcasted(reg, b, from.address)}
    ensures reg[b].typeId != target ==>
              AddressesVia(reg, from, b, target)
              == AddressesOf(reg, Place(reg[b].typeId, Upcasted(reg, b, from.address)), target)
  {
    var next := Place(reg[b].typeId, Upcasted(reg, b, from.address));
    if reg[b].typeId == target {
      forall a | Reaches(reg, next, Place(target, a)) ensures false {
        ReachesLowersRank(reg, rank, next, Place(target, a));
      }
    }
  }

  lemma SeenNext(reg: Store, from: Place, target: Info, k: nat, seen: iset<Address>)
    requires k < |BasesOf(reg, from.classId)|
    ensures seen + AddressesUpTo(reg, from, target, k + 1)
            == seen + AddressesUpTo(reg, from, target, k)
               + AddressesVia(reg, from, BasesOf(reg, from.classId)[k], target)
  {
    AddressesNext(reg, from, target, k);
  }

  lemma SeenSubset(reg: Store, from: Place, target: Info, k: nat, seen: iset<Address>)
    requires k <= |BasesOf(reg, from.classId)|
    ensures seen + AddressesUpTo(reg, from, target, k) <= seen + AddressesOf(reg, from, target)
  {
    AddressesSubset(reg, from, target, k);
  }

  lemma SeenNothing(reg: Store, from: Place, target: Info, seen: iset<Address>)
    ensures seen + AddressesUpTo(reg, from, target, 0) == seen
  {
  }

  lemma AmbiguityGrows(candidate: Address, found: bool, seen: iset<Address>, more: iset<Address>)
    requires Summarises(candidate, found, true, seen) && seen <= more
    ensures Summarises(candidate, found, true, more)
  {
    var a, b :| a in seen && b in seen && a != b;
    assert a in more && b in more;
  }

  lemma OneMore(candidate: Address, found: bool, seen: iset<Address>, next: Address)
    requires Summarises(candidate, found, false, seen)
    ensures Summarises(if found then candidate else next, true, found && candidate != next, seen + iset{next})
  {
    if found {
      assert candidate in seen;
    }
  }

  /** One more address of the target class. */
  method Meet(candidate0: Address, found0: bool, next: Address, ghost seen: iset<Address>)
    returns (candidate: Address, found: bool, ambiguous: bool)
    requires Summarises(candidate0, found0, false, seen)
    ensures Summarises(candidate, found, ambiguous, seen + iset{next})
    ensures found && (found0 ==> candidate == candidate0)
  {
    OneMore(candidate0, found0, seen, next);
    candidate, found, ambiguous := candidate0, found0, false;
    if !found {
      candidate, found := next, true;
    } else if candidate != next {
      ambiguous := true;
    }
  }

  /** collect_base_adjustments: the candidate and the two flags accumulate over
      the search and stop it at the second distinct address. */
  method CollectBaseAdjustments(reg: Store, ghost rank: Info -> nat, current: Info, target: Info, instance: Address,
                                candidate0: Address, found0: bool, ambiguous0: bool, ghost seen: iset<Address>)
    returns (candidate: Address, found: bool, ambiguous: bool)
    requires Acyclic(reg, rank)
    requires Summarises(candidate0, found0, ambiguous0, seen)
    ensures Summarises(candidate, found, ambiguous, seen + AddressesOf(reg, Place(current, instance), target))
    ensures found0 ==> found && candidate == candidate0
    ensures ambiguous0 ==> ambiguous
    decreases rank(current)
  {
    candidate, found, ambiguous := candidate0, found0, ambiguous0;
    ghost var from := Place(current, instance);
    ghost var all := seen + AddressesOf(reg, from, target);
    if ambiguous {
      AmbiguityGrows(candidate, found, seen, all);
      return;
    }
    var bases := BasesOf(reg, current);
    SeenNothing(reg, from, target, seen);
    for k := 0 to |bases|
      invariant Summarises(candidate, found, ambiguous, seen + AddressesUpTo(reg, from, target, k))
      invariant found0 ==> found && candidate == candidate0
      invariant !ambiguous
    {
      ghost var before := seen + AddressesUpTo(reg, from, target, k);
      ghost var after := seen + AddressesUpTo(reg, from, target, k + 1);
      SeenNext(reg, from, target, k, seen);
      SeenSubset(reg, from, target, k + 1, seen);
      if !Accessible(reg, bases[k]) || Upcasted(reg, bases[k], instance) == NULL {
        assert AddressesVia(reg, from, bases[k], target) == iset{};
        assert before == after;
        continue;
      }
      var next := Upcasted(reg, bases[k], instance);
      TargetBase(reg, rank, from, bases[k], target);
      if reg[bases[k]].typeId == target {
        candidate, found, ambiguous := Meet(candidate, found, next, before);
        if ambiguous {
          AmbiguityGrows(candidate, found, after, all);
          return;
        }
      } else {
        candidate, found, ambiguous := CollectBaseAdjustments(
          reg, rank, reg[bases[k]].typeId, target, next, candidate, found, ambiguous, before);
        if ambiguous {
          AmbiguityGrows(candidate, found, after, all);
          return;
        }
      }
    }
    AddressesAll(reg, from, target);
  }

  lemma OnlyIff(reg: Store, from: Place, target: Info, a: Address)
    ensures OnlyAddress(reg, from, target, a) <==> AddressesOf(reg, from, target) == iset{a}
  {
    var all := AddressesOf(reg, from, target);
    assert forall b :: b in all <==> Reaches(reg, from, Place(target, b));
    if all == iset{a} {
      assert a in all;
    }
  }

  lemma AddressesSubset(reg: Store, from: Place, target: Info, k: nat)
    requires k <= |BasesOf(reg, from.classId)|
    ensures AddressesUpTo(reg, from, target, k) <= AddressesOf(reg, from, target)
  {
    AddressesAll(reg, from, target);
  }

  /** What the finished search knows decides the adjustment. */
  lemma FromSummary(reg: Store, actual: Info, target: Info, instance: Address,
                    candidate: Address, found: bool, ambiguous: bool)
    requires instance != NULL && actual != target
    requires Summarises(candidate, found, ambiguous, iset{} + AddressesOf(reg, Place(actual, instance), target))
    ensures Adjustment(reg, actual, target, instance)
            == if !found || ambiguous then Failed(InvalidArgumentType) else Found(candidate)
  {
    var all := AddressesOf(reg, Place(actual, instance), target);
    assert iset{} + all == all;
    forall a: Address ensures OnlyAddress(reg, Place(actual, instance), target, a) <==> all == iset{a} {
      OnlyIff(reg, Place(actual, instance), target, a);
    }
    if found && !ambiguous {
      assert candidate in all;
    }
  }

  /** adjust_instance_pointer: on failure the out-parameter keeps its value. */
  method AdjustInstancePointer(reg: Store, ghost rank: Info -> nat, actual: Info, target: Info,
                               instance: Address, out0: Address)
    returns (error: Error, out: Address)
    requires Acyclic(reg, rank)
    ensures match Adjustment(reg, actual, target, instance)
            case Found(a) => error == Success && out == a
            case Failed(e) => error == e && out == out0
  {
    out := out0;
    if instance == NULL {
      return NullValue, out;
    }
    if actual == target {
      return Success, instance;
    }
    var candidate, found, ambiguous := CollectBaseAdjustments(
      reg, rank, actual, target, instance, NULL, false, false, iset{});
    FromSummary(reg, actual, target, instance, candidate, found, ambiguous);
    if !found || ambiguous {
      return InvalidArgumentType, out;
    }
    return Success, candidate;
  }

  // ----- Consequences -----

  /** Success with a happens exactly when the addresses over all base paths are {a}. */
  lemma AdjustmentIsExact(reg: Store, actual: Info, target: Info, instance: Address, a: Address)
    requires instance != NULL && actual != target
    ensures Adjustment(reg, actual, target, instance) == Found(a)
            <==> AddressesOf(reg, Place(actual, instance), target) == iset{a}
  {
    OnlyIff(reg, Place(actual, instance), target, a);
  }

  /** Some path leads from one place to the other; the empty one stays where it is. */
  ghost predicate Leads(reg: Store, from: Place, to: Place) {
    exists path :: Follow(reg, from, path) == Some(to)
  }

  /** Every address at which the target class can be found, the object itself included. */
  ghost function AddressesFrom(reg: Store, from: Place, target: Info): iset<Address> {
    iset b | Leads(reg, from, Place(target, b))
  }

  lemma LeadsIff(reg: Store, from: Place, to: Place)
    ensures Leads(reg, from, to) <==> from == to || Reaches(reg, from, to)
  {
    assert Follow(reg, from, []) == Some(from);
  }

  /** One law for all pairs of classes: adjustment finds an address exactly when it is the
      only one that paths lead to. */
  lemma AdjustmentOverAllPaths(reg: Store, rank: Info -> nat, actual: Info, target: Info, x: Address, a: Address)
    requires Acyclic(reg, rank) && x != NULL
    ensures Adjustment(reg, actual, target, x) == Found(a)
            <==> AddressesFrom(reg, Place(actual, x), target) == iset{a}
  {
    var from := Place(actual, x);
    forall b
      ensures b in AddressesFrom(reg, from, target)
              <==> (actual == target && b == x) || b in AddressesOf(reg, from, target)
    {
      LeadsIff(reg, from, Place(target, b));
    }
    if actual == target {
      forall b | Reaches(reg, from, Place(target, b)) ensures false {
        ReachesLowersRank(reg, rank, from, Place(target, b));
      }
      assert AddressesFrom(reg, from, target) == iset{x};
      assert x in AddressesFrom(reg, from, target);
    } else {
      AdjustmentIsExact(reg, actual, target, x, a);
      assert AddressesFrom(reg, from, target) == AddressesOf(reg, from, target);
    }
  }

  /** What it answers when it finds none. */
  lemma AdjustmentFails(reg: Store, actual: Info, target: Info, x: Address)
    ensures x == NULL ==> Adjustment(reg, actual, target, x) == Failed(NullValue)
    ensures x != NULL && Adjustment(reg, actual, target, x).Failed? ==>
              Adjustment(reg, actual, target, x) == Failed(InvalidArgumentType)
  {
  }

  lemma {:induction false} FollowJoins(reg: Store, from: Place, p: seq<Info>, q: seq<Info>)
    requires Follow(reg, from, p).Some?
    ensures Follow(reg, from, p + q) == Follow(reg, Follow(reg, from, p).value, q)
    decreases |p|
  {
    if p == [] {
      assert p + q == q;
    } else {
      var b := p[0];
      FollowJoins(reg, Place(reg[b].typeId, Upcasted(reg, b, from.address)), p[1..], q);
      assert (p + q)[1..] == p[1..] + q;
    }
  }

  lemma ReachesTransitive(reg: Store, from: Place, mid: Place, to: Place)
    requires Reaches(reg, from, mid) && Reaches(reg, mid, to)
    ensures Reaches(reg, from, to)
  {
    var p :| p != [] && Follow(reg, from, p) == Some(mid);
    var q :| q != [] && Follow(reg, mid, q) == Some(to);
    FollowJoins(reg, from, p, q);
    assert p + q != [];
  }

  /** Adjusting in two hops never contradicts adjusting directly: the direct
      adjustment gives the same address or is refused as ambiguous. */
  lemma AdjustmentCoherent(reg: Store, rank: Info -> nat, a: Info, b: Info, c: Info, x: Address)
    requires Acyclic(reg, rank)
    requires Adjustment(reg, a, b, x).Found?
    requires Adjustment(reg, b, c, Adjustment(reg, a, b, x).address).Found?
    ensures var twoHops := Adjustment(reg, b, c, Adjustment(reg, a, b, x).address);
            || Adjustment(reg, a, c, x) == twoHops
            || (Adjustment(reg, a, c, x) == Failed(InvalidArgumentType) && a != b && b != c)
  {
    if a != b && b != c {
      var y := Adjustment(reg, a, b, x).address;
      var z := Adjustment(reg, b, c, y).address;
      ReachesTransitive(reg, Place(a, x), Place(b, y), Place(c, z));
      ReachesLowersRank(reg, rank, Place(a, x), Place(c, z));
    }
  }

  /** The same bases in another order. */
  ghost predicate SameBases(r: Store, s: Store) {
    && (forall c, b :: b in BasesOf(r, c) <==> b in BasesOf(s, c))
    && (forall b :: Accessible(r, b) <==> Accessible(s, b))
    && (forall b | Accessible(r, b) :: r[b].typeId == s[b].typeId)
    && (forall b, x | Accessible(r, b) :: Upcasted(r, b, x) == Upcasted(s, b, x))
  }

  lemma {:induction false} FollowSameBases(r: Store, s: Store, from: Place, path: seq<Info>)
    requires SameBases(r, s)
    ensures Follow(r, from, path) == Follow(s, from, path)
    decreases |path|
  {
    if path != [] {
      var b := path[0];
      assert b in BasesOf(r, from.classId) <==> b in BasesOf(s, from.classId);
      if b in BasesOf(r, from.classId) && Accessible(r, b) && Upcasted(r, b, from.address) != NULL {
        FollowSameBases(r, s, Place(r[b].typeId, Upcasted(r, b, from.address)), path[1..]);
      }
    }
  }

  /** The verdict does not depend on the order in which bases are listed. */
  lemma BaseOrderIrrelevant(r: Store, s: Store, actual: Info, target: Info, instance: Address)
    requires SameBases(r, s)
    ensures Adjustment(r, actual, target, instance) == Adjustment(s, actual, target, instance)
  {
    forall from, to ensures Reaches(r, from, to) <==> Reaches(s, from, to) {
      forall path ensures Follow(r, from, path) == Follow(s, from, path) {
        FollowSameBases(r, s, from, path);
      }
    }
    var from := Place(actual, instance);
    forall a ensures OnlyAddress(r, from, target, a) <==> OnlyAddress(s, from, target, a) {
      assert forall b :: Reaches(r, from, Place(target, b)) <==> Reaches(s, from, Place(target, b));
    }
  }

  /** d has the two bases l and r, each of whose classes has one base of class root. */
  ghost predicate Diamond(reg: Store, d: Info, l: Info, r: Info, ll: Info, rr: Info, root: Info) {
    && BasesOf(reg, d) == [l, r] && Accessible(reg, l) && Accessible(reg, r)
    && BasesOf(reg, reg[l].typeId) == [ll] && BasesOf(reg, reg[r].typeId) == [rr]
    && Accessible(reg, ll) && Accessible(reg, rr)
    && reg[ll].typeId == root && reg[rr].typeId == root
    && reg[l].typeId != root && reg[r].typeId != root && d != root
  }

  /** A diamond adjusts to its root exactly when both sides reach the same root
      subobject, as virtual inheritance makes them. */
  lemma DiamondVerdict(reg: Store, rank: Info -> nat, d: Info, l: Info, r: Info, ll: Info, rr: Info, root: Info,
                       x: Address)
    requires Acyclic(reg, rank) && Diamond(reg, d, l, r, ll, rr, root) && x != NULL
    requires Upcasted(reg, l, x) != NULL && Upcasted(reg, r, x) != NULL
    requires Upcasted(reg, ll, Upcasted(reg, l, x)) != NULL && Upcasted(reg, rr, Upcasted(reg, r, x)) != NULL
    ensures var left := Upcasted(reg, ll, Upcasted(reg, l, x));
            var right := Upcasted(reg, rr, Upcasted(reg, r, x));
            Adjustment(reg, d, root, x) == if left == right then Found(left) else Failed(InvalidArgumentType)
  {
    var from := Place(d, x);
    var left := Upcasted(reg, ll, Upcasted(reg, l, x));
    var right := Upcasted(reg, rr, Upcasted(reg, r, x));
    SideAddresses(reg, rank, from, l, ll, root);
    SideAddresses(reg, rank, from, r, rr, root);
    assert AddressesOf(reg, from, root) == iset{left, right} by {
      AddressesAll(reg, from, root);
      AddressesNext(reg, from, root, 0);
      AddressesNext(reg, from, root, 1);
      assert AddressesUpTo(reg, from, root, 0) == iset{};
    }
    assert left in AddressesOf(reg, from, root) && right in AddressesOf(reg, from, root);
    if left == right {
      OnlyIff(reg, from, root, left);
    }
  }

  lemma SideAddresses(reg: Store, rank: Info -> nat, from: Place, b: Info, bb: Info, root: Info)
    requires Acyclic(reg, rank) && Accessible(reg, b) && Accessible(reg, bb)
    requires BasesOf(reg, reg[b].typeId) == [bb] && reg[bb].typeId == root && reg[b].typeId != root
    requires Upcasted(reg, b, from.address) != NULL && Upcasted(reg, bb, Upcasted(reg, b, from.address)) != NULL
    ensures AddressesVia(reg, from, b, root) == iset{Upcasted(reg, bb, Upcasted(reg, b, from.address))}
  {
    var next := Place(reg[b].typeId, Upcasted(reg, b, from.address));
    TargetBase(reg, rank, from, b, root);
    TargetBase(reg, rank, next, bb, root);
    AddressesAll(reg, next, root);
    AddressesNext(reg, next, root, 0);
    assert AddressesUpTo(reg, next, root, 0) == iset{};
  }
}
