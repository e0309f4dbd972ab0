/** include/cmm/detail/static_registry_view.hpp: building the compiled registry
    and searching it. */
module StaticRegistry {
  import opened Core
  import opened Entities
  import opened StableSort

  type EntityEntry = (Info, Entity)
  type NameEntry = (string, Info)

  // ----- Orders on ids and names -----

  predicate IdLess(a: Info, b: Info) { a < b }

  /** std::string_view comparison. */
  predicate NameLess(a: string, b: string) {
    b != [] && (a == [] || a[0] < b[0] || (a[0] == b[0] && NameLess(a[1..], b[1..])))
  }

  lemma IdOrder()
    ensures StrictOrder(IdLess)
  {
  }

  lemma {:induction false} NameLessTransitive(a: string, b: string, c: string)
    requires NameLess(a, b) && NameLess(b, c)
    ensures NameLess(a, c)
  {
    if a != [] && a[0] == b[0] && b[0] == c[0] {
      NameLessTransitive(a[1..], b[1..], c[1..]);
    }
  }

  lemma {:induction false} NameLessTotal(a: string, b: string)
    ensures a == b ==> !NameLess(a, b)
    ensures a != b ==> NameLess(a, b) || NameLess(b, a)
  {
    if a != [] && b != [] && a[0] == b[0] {
      NameLessTotal(a[1..], b[1..]);
      assert a == [a[0]] + a[1..] && b == [b[0]] + b[1..];
    }
  }

  lemma NameOrder()
    ensures StrictOrder(NameLess)
  {
    forall a ensures !NameLess(a, a) {
      NameLessTotal(a, a);
    }
    forall a, b, c | NameLess(a, b) && NameLess(b, c) ensures NameLess(a, c) {
      NameLessTransitive(a, b, c);
    }
    forall a: string, b: string | a != b ensures NameLess(a, b) || NameLess(b, a) {
      NameLessTotal(a, b);
    }
  }

  // ----- Building -----

  datatype Data = Data(entities: seq<EntityEntry>, names: seq<NameEntry>)

  /** std::abort while compiling: the declared registry is rejected. */
  datatype Built = Aborted | Compiled(data: Data)

  method HasDuplicateIds(entities: seq<EntityEntry>) returns (duplicate: bool)
    ensures duplicate <==> !DistinctKeys(entities)
  {
    for i := 0 to |entities|
      invariant forall a, b | 0 <= a < b < |entities| && a < i :: entities[a].0 != entities[b].0
    {
      for j := i + 1 to |entities|
        invariant forall b | i < b < j :: entities[i].0 != entities[b].0
      {
        if entities[i].0 == entities[j].0 {
          return true;
        }
      }
    }
    return false;
  }

  function NamesOf(entities: seq<EntityEntry>): (names: seq<NameEntry>)
    ensures |names| == |entities|
    ensures forall i | 0 <= i < |names| :: names[i] == (entities[i].1.name, entities[i].0)
  {
    seq(|entities|, i requires 0 <= i < |entities| => (entities[i].1.name, entities[i].0))
  }

  /** A name shared by several entries answers with the invalid id. */
  function Marked(names: seq<NameEntry>): (r: seq<NameEntry>)
    ensures |r| == |names|
    ensures forall i | 0 <= i < |r| ::
              r[i] == (names[i].0, if |Group(names, names[i].0)| > 1 then INVALID_INFO else names[i].1)
  {
    seq(|names|, i requires 0 <= i < |names| =>
      (names[i].0, if |Group(names, names[i].0)| > 1 then INVALID_INFO else names[i].1))
  }

  lemma NamesSorted(input: seq<EntityEntry>)
    ensures Sorted(Sort(NamesOf(input), NameLess), NameLess)
  {
    NameOrder();
    SortSorted(NamesOf(input), NameLess);
  }

  method SortedEntities(input: seq<EntityEntry>) returns (sorted: seq<EntityEntry>)
    ensures sorted == Sort(input, IdLess)
  {
    var entities := new EntityEntry[|input|](i requires 0 <= i < |input| => input[i]);
    assert entities[..] == input;
    InsertionSort(entities, IdLess);
    return entities[..];
  }

  method SortedNames(given: seq<NameEntry>) returns (sorted: seq<NameEntry>)
    ensures sorted == Sort(given, NameLess)
  {
    var names := new NameEntry[|given|](i requires 0 <= i < |given| => given[i]);
    assert names[..] == given;
    InsertionSort(names, NameLess);
    return names[..];
  }

  /** The names of the entities themselves, with repeated names marked. */
  method MarkedNames(input: seq<EntityEntry>) returns (marked: seq<NameEntry>)
    ensures marked == Marked(Sort(NamesOf(input), NameLess))
  {
    var sorted := SortedNames(NamesOf(input));
    NamesSorted(input);
    var names := new NameEntry[|sorted|](i requires 0 <= i < |sorted| => sorted[i]);
    assert names[..] == sorted;
    MarkDuplicates(names);
    return names[..];
  }

  /** The builder that indexes every entity under its own name. */
  method MakeStaticRegistryData(input: seq<EntityEntry>) returns (built: Built)
    ensures built == if !DistinctKeys(input) then Aborted
                     else Compiled(Data(Sort(input, IdLess), Marked(Sort(NamesOf(input), NameLess))))
  {
    var duplicate := HasDuplicateIds(input);
    if duplicate {
      return Aborted;
    }
    var entities := SortedEntities(input);
    var names := MarkedNames(input);
    return Compiled(Data(entities, names));
  }

  /** The builder given explicit names. */
  method MakeStaticRegistryDataWithNames(input: seq<EntityEntry>, givenNames: seq<NameEntry>) returns (built: Built)
    ensures built == if !DistinctKeys(input) then Aborted
                     else Compiled(Data(Sort(input, IdLess), Sort(givenNames, NameLess)))
  {
    var duplicate := HasDuplicateIds(input);
    if duplicate {
      return Aborted;
    }
    var entities := SortedEntities(input);
    var names := SortedNames(givenNames);
    return Compiled(Data(entities, names));
  }

  /** A run of equal keys that cannot be extended is the whole group. */
  ghost predicate IsRun(s: seq<NameEntry>, i: nat, end: nat) {
    && i < end <= |s|
    && (forall k | i <= k < end :: s[k].0 == s[i].0)
    && (forall k | 0 <= k < i :: s[k].0 != s[i].0)
    && (forall k | end <= k < |s| :: s[k].0 != s[i].0)
  }

  lemma {:induction false} GroupSpan(s: seq<NameEntry>, i: nat, end: nat, n: nat)
    requires IsRun(s, i, end) && n <= |s|
    ensures |Group(s[..n], s[i].0)| == if n <= i then 0 else if n <= end then n - i else end - i
  {
    if n > 0 {
      assert s[..n][..n - 1] == s[..n - 1];
      GroupSpan(s, i, end, n - 1);
    }
  }

  lemma RunIsGroup(s: seq<NameEntry>, i: nat, end: nat)
    requires IsRun(s, i, end)
    ensures |Group(s, s[i].0)| == end - i
  {
    GroupSpan(s, i, end, |s|);
    assert s[..|s|] == s;
  }

  /** Sortedness makes equal keys adjacent, so a maximal block is a run. */
  lemma BlockIsRun(s: seq<NameEntry>, i: nat, end: nat)
    requires StrictOrder(NameLess) && Sorted(s, NameLess) && i < end <= |s|
    requires i > 0 ==> s[i - 1].0 != s[i].0
    requires forall k | i <= k < end :: s[k].0 == s[i].0
    requires end < |s| ==> s[end].0 != s[i].0
    ensures IsRun(s, i, end)
  {
    forall k | 0 <= k < i ensures s[k].0 != s[i].0 {
      assert !NameLess(s[i].0, s[i - 1].0);
      if k < i - 1 {
        assert !NameLess(s[i - 1].0, s[k].0);
      }
    }
    forall k | end <= k < |s| ensures s[k].0 != s[i].0 {
      assert !NameLess(s[end].0, s[i].0);
      if k > end {
        assert !NameLess(s[k].0, s[end].0);
      }
    }
  }

  /** Entries i up to end lose their ids. */
  function BlankBetween(s: seq<NameEntry>, i: nat, end: nat): (r: seq<NameEntry>)
    requires i <= end <= |s|
    ensures |r| == |s|
    ensures forall k | 0 <= k < |r| :: r[k] == if i <= k < end then (s[k].0, INVALID_INFO) else s[k]
  {
    seq(|s|, k requires 0 <= k < |s| => if i <= k < end then (s[k].0, INVALID_INFO) else s[k])
  }

  method BlankRun(a: array<NameEntry>, i: nat, end: nat)
    requires i <= end <= a.Length
    modifies a
    ensures a[..] == BlankBetween(old(a[..]), i, end)
  {
    for j := i to end
      invariant a[..] == BlankBetween(old(a[..]), i, j)
    {
      a[j] := (a[j].0, INVALID_INFO);
    }
  }

  method RunEnd(a: array<NameEntry>, i: nat) returns (end: nat)
    requires i < a.Length
    ensures i < end <= a.Length
    ensures forall k | i <= k < end :: a[k].0 == a[i].0
    ensures end < a.Length ==> a[end].0 != a[i].0
  {
    end := i + 1;
    while end < a.Length && a[end].0 == a[i].0
      invariant i < end <= a.Length
      invariant forall k | i <= k < end :: a[k].0 == a[i].0
    {
      end := end + 1;
    }
  }

  /** Marking one whole run agrees with the definition on that run. */
  lemma RunMarked(s: seq<NameEntry>, i: nat, end: nat, k: nat)
    requires IsRun(s, i, end) && i <= k < end
    ensures Marked(s)[k] == if end - i > 1 then (s[k].0, INVALID_INFO) else s[k]
  {
    RunIsGroup(s, i, end);
  }

  /** Marked up to i, untouched from i on. */
  ghost predicate MarkedTo(now: seq<NameEntry>, s: seq<NameEntry>, i: nat) {
    && |now| == |s| && i <= |s|
    && (forall k | 0 <= k < i :: now[k] == Marked(s)[k])
    && (forall k | i <= k < |s| :: now[k] == s[k])
  }

  lemma MarkedOn(now: seq<NameEntry>, then_: seq<NameEntry>, s: seq<NameEntry>, i: nat, end: nat)
    requires MarkedTo(now, s, i) && IsRun(s, i, end)
    requires then_ == if end - i > 1 then BlankBetween(now, i, end) else now
    ensures MarkedTo(then_, s, end)
  {
    forall k | 0 <= k < end ensures then_[k] == Marked(s)[k] {
      if i <= k {
        RunMarked(s, i, end, k);
      }
    }
  }

  /** The marking loop: every run longer than one entry loses its ids. */
  method MarkDuplicates(a: array<NameEntry>)
    requires Sorted(a[..], NameLess)
    modifies a
    ensures a[..] == Marked(old(a[..]))
  {
    NameOrder();
    ghost var s := a[..];
    var i := 0;
    while i < a.Length
      invariant MarkedTo(a[..], s, i)
      invariant 0 < i < a.Length ==> s[i - 1].0 != s[i].0
    {
      ghost var now := a[..];
      assert forall k | i <= k < a.Length :: a[k] == now[k] == s[k];
      var end := RunEnd(a, i);
      BlockIsRun(s, i, end);
      if end - i > 1 {
        BlankRun(a, i, end);
      }
      MarkedOn(now, a[..], s, i, end);
      i := end;
    }
  }

  // ----- The view -----

  /** Binary search over the sorted entities; |entities| stands for end(). */
  method FindEntity(data: Data, id: Info) returns (at: nat)
    requires Sorted(data.entities, IdLess)
    ensures at <= |data.entities|
    ensures at < |data.entities| <==> Group(data.entities, id) != []
    ensures at < |data.entities| ==> data.entities[at] == Group(data.entities, id)[0]
  {
    IdOrder();
    var first := LowerBound(data.entities, id, IdLess);
    LowerBoundFinds(data.entities, id, IdLess, first);
    if first < |data.entities| && data.entities[first].0 == id {
      return first;
    }
    return |data.entities|;
  }

  method GetIdByName(data: Data, name: string) returns (id: Info)
    requires Sorted(data.names, NameLess)
    ensures id == if Group(data.names, name) == [] then INVALID_INFO else Group(data.names, name)[0].1
  {
    NameOrder();
    var first := LowerBound(data.names, name, NameLess);
    LowerBoundFinds(data.names, name, NameLess, first);
    if first < |data.names| && data.names[first].0 == name {
      return data.names[first].1;
    }
    return INVALID_INFO;
  }

  // ----- Canonical form -----

  /** The registry compiled from a duplicate-free declaration. */
  function Compile(input: seq<EntityEntry>): Data {
    Data(Sort(input, IdLess), Marked(Sort(NamesOf(input), NameLess)))
  }

  lemma NamesWithout(before: seq<EntityEntry>, e: EntityEntry, after: seq<EntityEntry>)
    ensures multiset(NamesOf(before + [e] + after)) == multiset(NamesOf(before + after)) + multiset{(e.1.name, e.0)}
  {
    assert NamesOf(before + [e] + after) == NamesOf(before) + [(e.1.name, e.0)] + NamesOf(after);
    assert NamesOf(before + after) == NamesOf(before) + NamesOf(after);
  }

  lemma {:induction false} NamesPermute(s: seq<EntityEntry>, t: seq<EntityEntry>)
    requires multiset(s) == multiset(t)
    ensures multiset(NamesOf(s)) == multiset(NamesOf(t))
    decreases |s|
  {
    if s == [] {
      assert |t| == |multiset(t)| == 0;
    } else {
      var front, last := s[..|s| - 1], s[|s| - 1];
      assert s == front + [last] + [] && front + [] == front;
      var before, after := FindOccurrence(t, last);
      assert multiset(front) == multiset(s) - multiset{last};
      NamesPermute(front, before + after);
      NamesWithout(front, last, []);
      NamesWithout(before, last, after);
    }
  }

  /** Marking keeps the keys, so it keeps the order. */
  lemma MarkedSorted(s: seq<NameEntry>)
    requires Sorted(s, NameLess)
    ensures Sorted(Marked(s), NameLess)
  {
  }

  function Blank(g: seq<NameEntry>): (r: seq<NameEntry>)
    ensures |r| == |g|
  {
    seq(|g|, i requires 0 <= i < |g| => (g[i].0, INVALID_INFO))
  }

  lemma BlankAppend(g: seq<NameEntry>, e: NameEntry)
    ensures Blank(g + [e]) == Blank(g) + [(e.0, INVALID_INFO)]
  {
  }

  /** One group, in a sequence t whose entries are those of s, blanked or not. */
  lemma {:induction false} BlankedGroup(s: seq<NameEntry>, t: seq<NameEntry>, k: string, blank: bool)
    requires |t| == |s|
    requires forall i | 0 <= i < |s| :: t[i].0 == s[i].0
    requires forall i | 0 <= i < |s| && s[i].0 == k :: t[i] == if blank then (k, INVALID_INFO) else s[i]
    ensures Group(t, k) == if blank then Blank(Group(s, k)) else Group(s, k)
  {
    if s != [] {
      BlankedGroup(s[..|s| - 1], t[..|s| - 1], k, blank);
      BlankAppend(Group(s[..|s| - 1], k), s[|s| - 1]);
    }
  }

  lemma MarkedGroup(s: seq<NameEntry>, k: string)
    ensures Group(Marked(s), k) == if |Group(s, k)| > 1 then Blank(Group(s, k)) else Group(s, k)
  {
    BlankedGroup(s, Marked(s), k, |Group(s, k)| > 1);
  }

  lemma CompiledNameGroup(input: seq<EntityEntry>, k: string)
    ensures var g := Group(NamesOf(input), k);
            Group(Compile(input).names, k) == if |g| > 1 then Blank(g) else g
  {
    NameOrder();
    MarkedGroup(Sort(NamesOf(input), NameLess), k);
    SortStable(NamesOf(input), NameLess, k);
  }

  lemma CompiledSorted(input: seq<EntityEntry>)
    ensures Sorted(Compile(input).entities, IdLess) && Sorted(Compile(input).names, NameLess)
  {
    IdOrder();
    NameOrder();
    SortSorted(input, IdLess);
    SortSorted(NamesOf(input), NameLess);
    MarkedSorted(Sort(NamesOf(input), NameLess));
  }

  lemma BlanksAgree(g: seq<NameEntry>, h: seq<NameEntry>, k: string)
    requires |g| == |h|
    requires (forall x | x in g :: x.0 == k) && (forall x | x in h :: x.0 == k)
    ensures Blank(g) == Blank(h)
  {
  }

  /** Every permutation of a duplicate-free declaration compiles to the same
      entity array and the same name array. */
  lemma CompileCanonical(s: seq<EntityEntry>, t: seq<EntityEntry>)
    requires DistinctKeys(s) && multiset(s) == multiset(t)
    ensures Compile(s) == Compile(t)
  {
    IdOrder();
    NameOrder();
    SortCanonical(s, t, IdLess);
    NamesPermute(s, t);
    CompiledSorted(s);
    CompiledSorted(t);
    forall k: string ensures Group(Compile(s).names, k) == Group(Compile(t).names, k) {
      var g, h := Group(NamesOf(s), k), Group(NamesOf(t), k);
      CompiledNameGroup(s, k);
      CompiledNameGroup(t, k);
      SameGroupMultisets(NamesOf(s), NamesOf(t), k);
      GroupSizes(NamesOf(s), NamesOf(t), k);
      if |g| <= 1 {
        ShortGroups(g, h);
      } else {
        GroupMembers(NamesOf(s), k);
        GroupMembers(NamesOf(t), k);
        BlanksAgree(g, h, k);
      }
    }
    SortedUnique(Compile(s).names, Compile(t).names, NameLess);
  }

  // ----- Lookups against the declaration -----

  /** What a linear scan of the unsorted declaration finds. */
  function FirstWithId(input: seq<EntityEntry>, id: Info): (e: Option<Entity>)
    ensures e.Some? ==> (id, e.value) in input
    ensures e.None? ==> forall x | x in input :: x.0 != id
  {
    if input == [] then None
    else if input[0].0 == id then Some(input[0].1)
    else FirstWithId(input[1..], id)
  }

  lemma UniqueEntry(input: seq<EntityEntry>, id: Info, e: Entity)
    requires DistinctKeys(input) && (id, e) in input
    ensures FirstWithId(input, id) == Some(e)
  {
  }

  /** Binary search of the compiled registry and a linear scan of the declaration
      find the same entity for every id. */
  lemma FindAgreesWithScan(input: seq<EntityEntry>, id: Info)
    requires DistinctKeys(input)
    ensures var g := Group(Compile(input).entities, id);
            FirstWithId(input, id) == if g == [] then None else Some(g[0].1)
  {
    IdOrder();
    SortStable(input, IdLess, id);
    GroupMembers(input, id);
    var g := Group(input, id);
    if g == [] {
      assert forall e: Entity | (id, e) in input :: (id, e) in g;
    } else {
      assert g[0] in input && g[0] == (id, g[0].1);
      UniqueEntry(input, id, g[0].1);
    }
  }

  /** The entities of a declaration by id. */
  ghost function StoreOf(input: seq<EntityEntry>): (store: map<Info, Entity>)
    ensures forall id :: (id in store <==> FirstWithId(input, id).Some?)
    ensures forall id | id in store :: FirstWithId(input, id) == Some(store[id])
  {
    assert forall x | x in input :: FirstWithId(input, x.0).Some?;
    map id | id in (set x | x in input :: x.0) :: FirstWithId(input, id).value
  }

  /** The declaration lists exactly the entities of a store, in any order. */
  ghost predicate Declares(input: seq<EntityEntry>, store: map<Info, Entity>) {
    && DistinctKeys(input)
    && (forall x | x in input :: x.0 in store && store[x.0] == x.1)
    && (forall id | id in store :: (id, store[id]) in input)
  }

  lemma StoreIsDeclared(input: seq<EntityEntry>, store: map<Info, Entity>)
    requires Declares(input, store)
    ensures StoreOf(input) == store
  {
    forall id ensures FirstWithId(input, id) == if id in store then Some(store[id]) else None {
      if id in store {
        UniqueEntry(input, id, store[id]);
      }
    }
  }

  ghost predicate StoredAs(store: map<Info, Entity>, id: Info, entity: Option<Entity>) {
    entity == if id in store then Some(store[id]) else None
  }

  /** The compiled registry answers every id as the declaration does. */
  method TryGetEntity(ghost input: seq<EntityEntry>, data: Data, id: Info) returns (entity: Option<Entity>)
    requires DistinctKeys(input) && data == Compile(input)
    ensures entity == FirstWithId(input, id) && StoredAs(StoreOf(input), id, entity)
  {
    CompiledSorted(input);
    FindAgreesWithScan(input, id);
    var at := FindEntity(data, id);
    return if at < |data.entities| then Some(data.entities[at].1) else None;
  }

  /** Exactly one declared entity has this name. */
  ghost predicate OnlyNamed(input: seq<EntityEntry>, name: string, i: int) {
    && 0 <= i < |input| && input[i].1.name == name
    && forall j | 0 <= j < |input| && input[j].1.name == name :: j == i
  }

  lemma {:induction false} NameGroup(input: seq<EntityEntry>, name: string)
    ensures var g := Group(NamesOf(input), name);
            && (|g| == 1 <==> exists i :: OnlyNamed(input, name, i))
            && (|g| == 0 <==> forall i | 0 <= i < |input| :: input[i].1.name != name)
            && (forall i | OnlyNamed(input, name, i) :: g == [(name, input[i].0)])
  {
    if input != [] {
      var last := |input| - 1;
      var front := input[..last];
      NameGroup(front, name);
      assert NamesOf(input)[..last] == NamesOf(front);
      var g, h := Group(NamesOf(input), name), Group(NamesOf(front), name);
      assert g == h + if input[last].1.name == name then [(name, input[last].0)] else [];
      assert forall i | 0 <= i < last :: front[i] == input[i];
      if input[last].1.name == name {
        if |h| == 0 {
          assert OnlyNamed(input, name, last);
        } else {
          var i :| 0 <= i < last && front[i].1.name == name;
          assert input[i].1.name == name;
        }
      } else {
        assert forall i :: OnlyNamed(input, name, i) <==> OnlyNamed(front, name, i);
      }
    }
  }

  /** After the build a name answers with an entity's id when exactly one declared
      entity carries it, and with the invalid id otherwise. */
  lemma NameLookupExact(input: seq<EntityEntry>, name: string)
    ensures var g := Group(Compile(input).names, name);
            var answer := if g == [] then INVALID_INFO else g[0].1;
            && (forall i | OnlyNamed(input, name, i) :: answer == input[i].0)
            && ((forall i :: !OnlyNamed(input, name, i)) ==> answer == INVALID_INFO)
  {
    CompiledNameGroup(input, name);
    NameGroup(input, name);
  }

  /** Given explicit names, a name answers with its first declared pair. */
  lemma ExplicitNamesFirst(names: seq<NameEntry>, name: string)
    ensures Sorted(Sort(names, NameLess), NameLess)
    ensures Group(Sort(names, NameLess), name) == Group(names, name)
    ensures forall i | 0 <= i < |names| && names[i].0 == name && (forall j | 0 <= j < i :: names[j].0 != name) ::
              Group(names, name) != [] && Group(names, name)[0] == names[i]
    ensures (forall i | 0 <= i < |names| :: names[i].0 != name) ==> Group(names, name) == []
  {
    NameOrder();
    SortSorted(names, NameLess);
    SortStable(names, NameLess, name);
    assert names[..|names|] == names;
    forall i | 0 <= i < |names| && names[i].0 == name && forall j | 0 <= j < i :: names[j].0 != name
      ensures Group(names, name) != [] && Group(names, name)[0] == names[i]
    {
      GroupStarts(names, name, i, |names|);
    }
    if forall i | 0 <= i < |names| :: names[i].0 != name {
      GroupAbove(names, name, |names|);
    }
  }
}
