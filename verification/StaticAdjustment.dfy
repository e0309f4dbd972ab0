/** The search for base adjustments in a compiled registry, which looks every class
    and every base up by binary search. */
module StaticAdjustment {
  import opened Core
  import opened Entities
  import opened StableSort
  import opened StaticRegistry
  import opened BaseAdjustment

  /** data was compiled from a declaration of the entities in reg. */
  ghost predicate Holds(input: seq<EntityEntry>, reg: Store, data: Data) {
    DistinctKeys(input) && data == Compile(input) && reg == StoreOf(input)
  }

  /** try_get_as<Class>, then bases(). */
  method BasesIn(ghost input: seq<EntityEntry>, ghost reg: Store, data: Data, c: Info) returns (bases: seq<Info>)
    requires Holds(input, reg, data)
    ensures bases == BasesOf(reg, c)
  {
    var entity := TryGetEntity(input, data, c);
    return if entity.Some? && entity.value.ClassEntity? then entity.value.lists.bases else [];
  }

  /** try_get_as<Base>, is_runtime_accessible and upcast: the base's class and where
      its subobject is, unless the search passes over it. */
  method BaseAt(ghost input: seq<EntityEntry>, ghost reg: Store, data: Data, b: Info, instance: Address)
    returns (next: Option<Place>)
    requires Holds(input, reg, data)
    ensures next == NextPlace(reg, b, instance)
  {
    var entity := TryGetEntity(input, data, b);
    if entity.None? || !entity.value.BaseEntity? || entity.value.upcast.None? {
      return None;
    }
    var address := (entity.value.upcast.value)(instance);
    return if address == NULL then None else Some(Place(entity.value.typeId, address));
  }

  function NextPlace(reg: Store, b: Info, instance: Address): Option<Place> {
    if Accessible(reg, b) && Upcasted(reg, b, instance) != NULL
    then Some(Place(reg[b].typeId, Upcasted(reg, b, instance)))
    else None
  }

  /** collect_base_adjustments of the compiled registry. */
  method CollectBaseAdjustments(ghost input: seq<EntityEntry>, ghost reg: Store, data: Data, ghost rank: Info -> nat,
                                current: Info, target: Info, instance: Address,
                                candidate0: Address, found0: bool, ambiguous0: bool, ghost seen: iset<Address>)
    returns (candidate: Address, found: bool, ambiguous: bool)
    requires Holds(input, reg, data) && Acyclic(reg, rank)
    requires Summarises(candidate0, found0, ambiguous0, seen)
    ensures Summarises(candidate, found, ambiguous,
                       seen + AddressesOf(reg, Place(current, instance), target))
    ensures found0 ==> found && candidate == candidate0
    ensures ambiguous0 ==> ambiguous
    decreases rank(current), 1
  {
    candidate, found, ambiguous := candidate0, found0, ambiguous0;
    var from := Place(current, instance);
    ghost var all := seen + AddressesOf(reg, from, target);
    if ambiguous {
      AmbiguityGrows(candidate, found, seen, all);
      return;
    }
    var bases := BasesIn(input, reg, data, current);
    SeenNothing(reg, from, target, seen);
    for k := 0 to |bases|
      invariant Summarises(candidate, found, ambiguous, seen + AddressesUpTo(reg, from, target, k))
      invariant found0 ==> found && candidate == candidate0
      invariant !ambiguous
    {
      ghost var before := seen + AddressesUpTo(reg, from, target, k);
      SeenNext(reg, from, target, k, seen);
      SeenSubset(reg, from, target, k + 1, seen);
      candidate, found, ambiguous :=
        FollowBase(input, reg, data, rank, from, bases[k], k, target, candidate, found, before);
      if ambiguous {
        AmbiguityGrows(candidate, found, seen + AddressesUpTo(reg, from, target, k + 1), all);
        return;
      }
    }
    AddressesAll(reg, from, target);
  }

  /** One turn of that loop. */
  method FollowBase(ghost input: seq<EntityEntry>, ghost reg: Store, data: Data, ghost rank: Info -> nat,
                    from: Place, b: Info, ghost k: nat, target: Info,
                    candidate0: Address, found0: bool, ghost seen: iset<Address>)
    returns (candidate: Address, found: bool, ambiguous: bool)
    requires Holds(input, reg, data) && Acyclic(reg, rank) && k < |BasesOf(reg, from.classId)|
    requires b == BasesOf(reg, from.classId)[k]
    requires Summarises(candidate0, found0, false, seen)
    ensures Summarises(candidate, found, ambiguous, seen + AddressesVia(reg, from, b, target))
    ensures found0 ==> found && candidate == candidate0
    decreases rank(from.classId), 0
  {
    candidate, found, ambiguous := candidate0, found0, false;
    var next := BaseAt(input, reg, data, b, from.address);
    if next.None? {
      assert AddressesVia(reg, from, b, target) == iset{};
      assert seen + AddressesVia(reg, from, b, target) == seen;
      return;
    }
    TargetBase(reg, rank, from, b, target);
    if next.value.classId == target {
      candidate, found, ambiguous := Meet(candidate, found, next.value.address, seen);
    } else {
      candidate, found, ambiguous := CollectBaseAdjustments(
        input, reg, data, rank, next.value.classId, target, next.value.address, candidate, found, ambiguous, seen);
    }
  }

  /** adjust_instance_pointer of the compiled registry: the answer over all base
      paths of the declaration, whatever the declaration's order. */
  method AdjustInstancePointer(ghost input: seq<EntityEntry>, ghost reg: Store, data: Data, ghost rank: Info -> nat,
                               actual: Info, target: Info, instance: Address, out0: Address)
    returns (error: Error, out: Address)
    requires Holds(input, reg, data) && Acyclic(reg, rank)
    ensures match Adjustment(reg, actual, target, instance)
            case Found(a) => error == Success && out == a
            case Failed(e) => error == e && out == out0
  {
    out := out0;
    if instance == NULL {
      return NullValue, out;
    }
    if actual == target {
      return Success, instance;
    }
    var candidate, found, ambiguous := CollectBaseAdjustments(
      input, reg, data, rank, actual, target, instance, NULL, false, false, iset{});
    FromSummary(reg, actual, target, instance, candidate, found, ambiguous);
    if !found || ambiguous {
      return InvalidArgumentType, out;
    }
    return Success, candidate;
  }
}
