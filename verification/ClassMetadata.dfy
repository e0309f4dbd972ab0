/** The member lists of a reflected class, built in two ways: incrementally while
    a class is registered at run time, and by count-then-fill passes when a static
    registry is compiled. */
module ClassMetadata {
  import opened Core

  datatype MemberKind =
    | NonstaticData
    | StaticData
    | Constructor
    | Destructor
    | MemberFunction
    | NestedType

  /** What reflection says about one class member. */
  datatype Member = Member(id: Info, kind: MemberKind, reflectable: bool, identifier: Option<string>)

  /** Unannotated members are skipped, except destructors. */
  predicate Included(m: Member) {
    m.reflectable || m.kind.Destructor?
  }

  predicate Named(m: Member) {
    Included(m) && m.identifier.Some?
  }

  predicate OfKind(m: Member, kind: MemberKind) {
    m.reflectable && m.kind == kind
  }

  type NameIndex = seq<(string, Info)>

  /** The queryable part of a class entity. */
  datatype MemberLists = MemberLists(
    bases: seq<Info>,
    members: seq<Info>,
    nonstaticData: seq<Info>,
    staticData: seq<Info>,
    functions: seq<Info>,
    constructors: seq<Info>,
    destructor: Info,
    names: NameIndex)

  const NO_MEMBERS := MemberLists([], [], [], [], [], [], INVALID_INFO, [])

  // ----- What the lists should be -----

  /** The images under f of the members that satisfy p, in declaration order. */
  function Pick<T>(ms: seq<Member>, p: Member -> bool, f: Member -> T): (r: seq<T>)
    ensures |r| <= |ms|
  {
    if ms == [] then []
    else
      var rest := Pick(ms[..|ms| - 1], p, f);
      if p(ms[|ms| - 1]) then rest + [f(ms[|ms| - 1])] else rest
  }

  /** Pick keeps exactly the images of the members that satisfy p. */
  lemma {:induction false} PickElements<T>(ms: seq<Member>, p: Member -> bool, f: Member -> T)
    ensures forall x | x in Pick(ms, p, f) :: exists k :: 0 <= k < |ms| && p(ms[k]) && f(ms[k]) == x
    ensures forall k | 0 <= k < |ms| && p(ms[k]) :: f(ms[k]) in Pick(ms, p, f)
  {
    if ms != [] {
      var last := |ms| - 1;
      var front := ms[..last];
      PickElements(front, p, f);
      assert Pick(ms, p, f) == Pick(front, p, f) + if p(ms[last]) then [f(ms[last])] else [];
      forall x | x in Pick(ms, p, f) ensures exists k :: 0 <= k < |ms| && p(ms[k]) && f(ms[k]) == x {
        if x in Pick(front, p, f) {
          var k :| 0 <= k < |front| && p(front[k]) && f(front[k]) == x;
          assert front[k] == ms[k];
        }
      }
      forall k | 0 <= k < |ms| && p(ms[k]) ensures f(ms[k]) in Pick(ms, p, f) {
        if k < last {
          assert front[k] == ms[k];
        }
      }
    }
  }

  function IdOf(m: Member): Info { m.id }

  function NameEntry(m: Member): (string, Info) {
    (if m.identifier.Some? then m.identifier.value else "", m.id)
  }

  function LastDestructor(ms: seq<Member>): Info {
    if ms == [] then INVALID_INFO
    else if ms[|ms| - 1].kind.Destructor? then ms[|ms| - 1].id
    else LastDestructor(ms[..|ms| - 1])
  }

  function IdsOfKind(ms: seq<Member>, kind: MemberKind): seq<Info> {
    Pick(ms, m => OfKind(m, kind), IdOf)
  }

  /** The lists a class ends with, stated by filtering the declaration order. */
  function DeclaredLists(bases: seq<Info>, ms: seq<Member>): MemberLists {
    MemberLists(
      bases,
      Pick(ms, Included, IdOf),
      IdsOfKind(ms, NonstaticData),
      IdsOfKind(ms, StaticData),
      IdsOfKind(ms, MemberFunction),
      IdsOfKind(ms, Constructor),
      LastDestructor(ms),
      Pick(ms, Named, NameEntry))
  }

  // ----- Name lookup -----

  ghost predicate NameAt(names: NameIndex, name: string, i: int) {
    0 <= i < |names| && names[i].0 == name
  }

  /** A name resolves when exactly one entry carries it. */
  ghost predicate UniquelyNamed(names: NameIndex, name: string, i: int) {
    NameAt(names, name, i) && forall j | NameAt(names, name, j) :: j == i
  }

  ghost function ResolveMember(names: NameIndex, name: string): (id: Info)
    ensures forall i | UniquelyNamed(names, name, i) :: id == names[i].1
    ensures (forall i :: !UniquelyNamed(names, name, i)) ==> id == INVALID_INFO
  {
    if i :| UniquelyNamed(names, name, i) then names[i].1 else INVALID_INFO
  }

  /** Class::get_member_by_name: one scan with a found flag, giving up at the
      second entry of that name. */
  method GetMemberByName(names: NameIndex, name: string) returns (id: Info)
    ensures id == ResolveMember(names, name)
  {
    var result, found := INVALID_INFO, false;
    ghost var at := 0;
    for k := 0 to |names|
      invariant found ==> at < k && NameAt(names, name, at) && result == names[at].1
      invariant forall j | 0 <= j < k && NameAt(names, name, j) :: found && j == at
    {
      if names[k].0 != name {
        continue;
      }
      if found {
        assert NameAt(names, name, k) && NameAt(names, name, at);
        return INVALID_INFO;
      }
      result, found, at := names[k].1, true, k;
    }
    if found {
      assert UniquelyNamed(names, name, at);
      return result;
    }
    return INVALID_INFO;
  }

  // ----- The run-time form: add_* on owned vectors -----

  /** The position of the first entry with this name, if any. */
  function FirstNamed(names: NameIndex, name: string): (at: Option<nat>)
    ensures at.Some? ==> NameAt(names, name, at.value)
    ensures at.None? ==> forall i :: !NameAt(names, name, i)
  {
    if names == [] then None
    else if names[0].0 == name then Some(0)
    else
      var rest := FirstNamed(names[1..], name);
      assert forall i | i > 0 && NameAt(names, name, i) :: NameAt(names[1..], name, i - 1);
      if rest.Some? then Some(rest.value + 1) else None
  }

  /** Class::add_member_name: a repeated name makes its one entry ambiguous. */
  function WithMemberName(names: NameIndex, name: string, id: Info): NameIndex {
    var at := FirstNamed(names, name);
    if at.Some? then names[at.value := (name, INVALID_INFO)] else names + [(name, id)]
  }

  function RuntimeNames(ms: seq<Member>): NameIndex {
    if ms == [] then []
    else
      var m := ms[|ms| - 1];
      var rest := RuntimeNames(ms[..|ms| - 1]);
      if Named(m) then WithMemberName(rest, m.identifier.value, m.id) else rest
  }

  /** The lists of a class registered at run time. */
  function RuntimeLists(bases: seq<Info>, ms: seq<Member>): MemberLists {
    DeclaredLists(bases, ms).(names := RuntimeNames(ms))
  }

  /** include/cmm/detail/entities/class.hpp: a class under construction.  Every
      list is owned and grows by push_back. */
  class Class {
    var bases: seq<Info>
    var members: seq<Info>
    var nonstaticData: seq<Info>
    var staticData: seq<Info>
    var functions: seq<Info>
    var constructors: seq<Info>
    var destructor: Info
    var names: NameIndex

    function Lists(): MemberLists
      reads this
    {
      MemberLists(bases, members, nonstaticData, staticData, functions, constructors, destructor, names)
    }

    constructor ()
      ensures Lists() == NO_MEMBERS
    {
      bases, members, nonstaticData, staticData, functions, constructors := [], [], [], [], [], [];
      destructor, names := INVALID_INFO, [];
    }

    method AddBase(id: Info)
      modifies this
      ensures Lists() == old(Lists()).(bases := old(bases) + [id])
    {
      bases := bases + [id];
    }

    method AddMember(id: Info)
      modifies this
      ensures Lists() == old(Lists()).(members := old(members) + [id])
    {
      members := members + [id];
    }

    /** add_nonstatic_data_member, add_static_data_member, add_function,
        add_constructor and set_destructor, selected by the member's kind. */
    method AddOfKind(kind: MemberKind, id: Info)
      modifies this
      ensures Lists() == WithKind(old(Lists()), kind, id)
    {
      match kind
      case NonstaticData => nonstaticData := nonstaticData + [id];
      case StaticData => staticData := staticData + [id];
      case MemberFunction => functions := functions + [id];
      case Constructor => constructors := constructors + [id];
      case Destructor => destructor := id;
      case NestedType =>
    }

    method AddMemberName(name: string, id: Info)
      modifies this
      ensures Lists() == old(Lists()).(names := WithMemberName(old(names), name, id))
    {
      var k := 0;
      while k < |names|
        invariant 0 <= k <= |names|
        invariant names == old(names)
        invariant forall j | 0 <= j < k :: names[j].0 != name
        invariant FirstNamed(names, name) == Shift(FirstNamed(names[k..], name), k)
      {
        if names[k].0 == name {
          names := names[k := (name, INVALID_INFO)];
          return;
        }
        assert names[k..][1..] == names[k + 1..];
        k := k + 1;
      }
      names := names + [(name, id)];
    }

    /** StaticClassMetadata::apply: point every span at the compiled arrays. */
    method Apply(baseIds: seq<Info>, ms: seq<Member>)
      modifies this
      ensures Lists() == DeclaredLists(baseIds, ms)
    {
      members := CountThenFill(ms, Included, IdOf, INVALID_INFO);
      nonstaticData := CountThenFill(ms, m => OfKind(m, NonstaticData), IdOf, INVALID_INFO);
      staticData := CountThenFill(ms, m => OfKind(m, StaticData), IdOf, INVALID_INFO);
      functions := CountThenFill(ms, m => OfKind(m, MemberFunction), IdOf, INVALID_INFO);
      constructors := CountThenFill(ms, m => OfKind(m, Constructor), IdOf, INVALID_INFO);
      bases := baseIds;
      destructor := FindDestructor(ms);
      names := CountThenFill(ms, Named, NameEntry, ("", INVALID_INFO));
    }
  }

  function Shift(at: Option<nat>, k: nat): Option<nat> {
    if at.Some? then Some(at.value + k) else None
  }

  function WithKind(lists: MemberLists, kind: MemberKind, id: Info): MemberLists {
    match kind
    case NonstaticData => lists.(nonstaticData := lists.nonstaticData + [id])
    case StaticData => lists.(staticData := lists.staticData + [id])
    case MemberFunction => lists.(functions := lists.functions + [id])
    case Constructor => lists.(constructors := lists.constructors + [id])
    case Destructor => lists.(destructor := id)
    case NestedType => lists
  }

  /** One turn of the member loop of register_class, given that the member's
      entity was inserted. */
  function AfterMember(lists: MemberLists, m: Member): MemberLists {
    if !Included(m) then lists
    else
      var named := if m.identifier.Some?
                   then lists.(names := WithMemberName(lists.names, m.identifier.value, m.id))
                   else lists;
      WithKind(named.(members := named.members + [m.id]), m.kind, m.id)
  }

  lemma RuntimeStep(bases: seq<Info>, ms: seq<Member>, k: nat)
    requires k < |ms|
    ensures AfterMember(RuntimeLists(bases, ms[..k]), ms[k]) == RuntimeLists(bases, ms[..k + 1])
  {
    var longer := ms[..k + 1];
    assert longer[..|longer| - 1] == ms[..k] && longer[|longer| - 1] == ms[k];
  }

  /** The member loop of register_class over a class that has its bases. */
  function Registered(lists: MemberLists, ms: seq<Member>): MemberLists {
    if ms == [] then lists else AfterMember(Registered(lists, ms[..|ms| - 1]), ms[|ms| - 1])
  }

  /** A class whose bases have been added and nothing else. */
  function OnlyBases(bases: seq<Info>): MemberLists {
    NO_MEMBERS.(bases := bases)
  }

  /** The incremental loop builds exactly the filtered lists. */
  lemma {:induction false} LoopBuildsLists(bases: seq<Info>, ms: seq<Member>)
    ensures Registered(OnlyBases(bases), ms) == RuntimeLists(bases, ms)
  {
    if ms != [] {
      LoopBuildsLists(bases, ms[..|ms| - 1]);
      RuntimeStep(bases, ms, |ms| - 1);
      assert ms[..|ms|] == ms;
    }
  }

  // ----- The static form: count, then fill an array of that size -----

  /** The count_* passes of static_class_metadata.hpp. */
  method CountMembers(ms: seq<Member>, p: Member -> bool) returns (count: nat)
    ensures count == |Pick(ms, p, IdOf)|
  {
    count := 0;
    for k := 0 to |ms|
      invariant count == |Pick(ms[..k], p, IdOf)|
    {
      assert ms[..k + 1][..k] == ms[..k];
      if p(ms[k]) {
        count := count + 1;
      }
    }
    assert ms[..|ms|] == ms;
  }

  /** How many members pass does not depend on what is stored of them. */
  lemma {:induction false} PickLength<T>(ms: seq<Member>, p: Member -> bool, f: Member -> T)
    ensures |Pick(ms, p, f)| == |Pick(ms, p, IdOf)|
  {
    if ms != [] {
      PickLength(ms[..|ms| - 1], p, f);
    }
  }

  /** The *_ids passes: an array of the counted size, filled by a second pass that
      writes exactly as many elements as the first one counted. */
  method CountThenFill<T>(ms: seq<Member>, p: Member -> bool, f: Member -> T, blank: T) returns (ids: seq<T>)
    ensures ids == Pick(ms, p, f)
  {
    var count := CountMembers(ms, p);
    PickLength(ms, p, f);
    var result := new T[count](_ => blank);
    var index := 0;
    for k := 0 to |ms|
      invariant index == |Pick(ms[..k], p, f)| <= count
      invariant result[..index] == Pick(ms[..k], p, f)
    {
      assert ms[..k + 1][..k] == ms[..k];
      if p(ms[k]) {
        PickGrows(ms, p, f, k + 1);
        result[index] := f(ms[k]);
        index := index + 1;
      }
    }
    assert ms[..|ms|] == ms && result[..] == result[..index];
    return result[..];
  }

  lemma PickGrows<T>(ms: seq<Member>, p: Member -> bool, f: Member -> T, k: nat)
    requires k <= |ms|
    ensures |Pick(ms[..k], p, f)| <= |Pick(ms, p, f)|
    decreases |ms| - k
  {
    if k < |ms| {
      assert ms[..k + 1][..k] == ms[..k];
      PickGrows(ms, p, f, k + 1);
    } else {
      assert ms[..k] == ms;
    }
  }

  method FindDestructor(ms: seq<Member>) returns (id: Info)
    ensures id == LastDestructor(ms)
  {
    id := INVALID_INFO;
    for k := 0 to |ms|
      invariant id == LastDestructor(ms[..k])
    {
      assert ms[..k + 1][..k] == ms[..k];
      if ms[k].kind.Destructor? {
        id := ms[k].id;
      }
    }
    assert ms[..|ms|] == ms;
  }

  // ----- The two forms answer alike -----

  ghost predicate DistinctNames(names: NameIndex) {
    forall i, j | 0 <= i < j < |names| :: names[i].0 != names[j].0
  }

  /** Names occur at most once in a run-time index. */
  lemma {:induction false} RuntimeNamesDistinct(ms: seq<Member>)
    ensures DistinctNames(RuntimeNames(ms))
  {
    if ms != [] {
      RuntimeNamesDistinct(ms[..|ms| - 1]);
      var m, rest := ms[|ms| - 1], RuntimeNames(ms[..|ms| - 1]);
      if Named(m) {
        WithMemberNameDistinct(rest, m.identifier.value, m.id);
      }
    }
  }

  lemma WithMemberNameDistinct(names: NameIndex, name: string, id: Info)
    requires DistinctNames(names)
    ensures DistinctNames(WithMemberName(names, name, id))
  {
    var at := FirstNamed(names, name);
    if at.None? {
      forall i | 0 <= i < |names| ensures names[i].0 != name {
        assert !NameAt(names, name, i);
      }
    } else {
      assert NameAt(names, name, at.value);
    }
  }

  /** How many included members carry a name. */
  ghost function Bearers(names: NameIndex, name: string): nat {
    if names == [] then 0
    else Bearers(names[..|names| - 1], name) + if names[|names| - 1].0 == name then 1 else 0
  }

  lemma {:induction false} BearersCount(names: NameIndex, name: string)
    ensures Bearers(names, name) == 0 <==> forall i :: !NameAt(names, name, i)
    ensures Bearers(names, name) == 1 <==> exists i :: UniquelyNamed(names, name, i)
  {
    if names != [] {
      var last := |names| - 1;
      var rest := names[..last];
      BearersCount(rest, name);
      assert forall i | i < last :: NameAt(names, name, i) <==> NameAt(rest, name, i);
      if Bearers(rest, name) == 1 {
        var i :| UniquelyNamed(rest, name, i);
        assert NameAt(names, name, i);
        if names[last].0 == name {
          assert NameAt(names, name, last);
        } else {
          assert UniquelyNamed(names, name, i);
        }
      } else if names[last].0 == name {
        assert NameAt(names, name, last);
        if Bearers(rest, name) == 0 {
          assert UniquelyNamed(names, name, last);
        } else {
          var j :| NameAt(rest, name, j);
          assert NameAt(names, name, j);
        }
      } else if exists i :: UniquelyNamed(names, name, i) {
        var i :| UniquelyNamed(names, name, i);
        assert UniquelyNamed(rest, name, i);
      } else if Bearers(rest, name) == 0 {
        assert forall i :: !NameAt(names, name, i);
      } else {
        var j :| NameAt(rest, name, j);
        assert NameAt(names, name, j);
      }
    }
  }

  ghost function UniqueOrInvalid(names: NameIndex, name: string): Info {
    if Bearers(names, name) == 1 then ResolveMember(names, name) else INVALID_INFO
  }

  lemma UniqueElsewhere(names: NameIndex, e: (string, Info), name: string)
    requires e.0 != name
    ensures Bearers(names + [e], name) == Bearers(names, name)
    ensures UniqueOrInvalid(names + [e], name) == UniqueOrInvalid(names, name)
  {
    assert (names + [e])[..|names|] == names;
    BearersCount(names, name);
    if Bearers(names, name) == 1 {
      var i :| UniquelyNamed(names, name, i);
      assert forall j | NameAt(names + [e], name, j) :: NameAt(names, name, j);
      assert UniquelyNamed(names + [e], name, i);
    }
  }

  lemma UniqueHere(names: NameIndex, e: (string, Info), name: string)
    requires e.0 == name
    ensures Bearers(names + [e], name) == Bearers(names, name) + 1
    ensures UniqueOrInvalid(names + [e], name) == if Bearers(names, name) == 0 then e.1 else INVALID_INFO
  {
    assert (names + [e])[..|names|] == names;
    BearersCount(names, name);
    if Bearers(names, name) == 0 {
      assert forall j | NameAt(names + [e], name, j) :: j == |names| || NameAt(names, name, j);
      assert UniquelyNamed(names + [e], name, |names|);
    }
  }

  /** The run-time index keeps one entry per name, holding the id when the static
      index has one entry of that name and the invalid id when it has more. */
  ghost predicate EntryMatches(full: NameIndex, index: NameIndex, name: string) {
    && (Bearers(full, name) == 0 <==> forall i :: !NameAt(index, name, i))
    && (forall i | NameAt(index, name, i) :: index[i].1 == UniqueOrInvalid(full, name))
  }

  lemma OtherName(full: NameIndex, index: NameIndex, n: string, id: Info, name: string)
    requires n != name && EntryMatches(full, index, name)
    ensures EntryMatches(full + [(n, id)], WithMemberName(index, n, id), name)
  {
    UniqueElsewhere(full, (n, id), name);
    var longer := WithMemberName(index, n, id);
    forall i ensures NameAt(longer, name, i) <==> NameAt(index, name, i) {
    }
  }

  lemma SameName(full: NameIndex, index: NameIndex, id: Info, name: string)
    requires EntryMatches(full, index, name) && DistinctNames(index)
    ensures EntryMatches(full + [(name, id)], WithMemberName(index, name, id), name)
  {
    UniqueHere(full, (name, id), name);
    var longer := WithMemberName(index, name, id);
    var at := FirstNamed(index, name);
    if at.Some? {
      assert NameAt(longer, name, at.value);
      assert forall i | NameAt(longer, name, i) :: i == at.value;
    } else {
      assert NameAt(longer, name, |index|);
      assert forall i | NameAt(longer, name, i) :: i == |index| || NameAt(index, name, i);
    }
  }

  lemma {:induction false} RuntimeIndexEntry(ms: seq<Member>, name: string)
    ensures EntryMatches(Pick(ms, Named, NameEntry), RuntimeNames(ms), name)
  {
    if ms != [] {
      var before, m := ms[..|ms| - 1], ms[|ms| - 1];
      RuntimeIndexEntry(before, name);
      if Named(m) {
        RuntimeNamesDistinct(before);
        var full, index := Pick(before, Named, NameEntry), RuntimeNames(before);
        if m.identifier.value == name {
          SameName(full, index, m.id, name);
        } else {
          OtherName(full, index, m.identifier.value, m.id, name);
        }
      }
    }
  }

  /** The overwritten-entry encoding and the repeated-entry encoding of ambiguity
      give the same answer for every member list and every name. */
  lemma NameEncodingsAgree(ms: seq<Member>, name: string)
    ensures ResolveMember(RuntimeNames(ms), name) == ResolveMember(Pick(ms, Named, NameEntry), name)
  {
    var full, index := Pick(ms, Named, NameEntry), RuntimeNames(ms);
    RuntimeIndexEntry(ms, name);
    RuntimeNamesDistinct(ms);
    BearersCount(full, name);
    var at := FirstNamed(index, name);
    if at.Some? {
      assert UniquelyNamed(index, name, at.value);
    }
  }

  /** Everything a query can see of a class is the same in both registries: the
      class that the member loop fills one member at a time has the lists that the
      compiled arrays install, and its name index answers every name alike. */
  lemma RuntimeAndStaticAgree(bases: seq<Info>, ms: seq<Member>)
    ensures var runtime, static_ := Registered(OnlyBases(bases), ms), DeclaredLists(bases, ms);
            && runtime.(names := []) == static_.(names := [])
            && forall name :: ResolveMember(runtime.names, name) == ResolveMember(static_.names, name)
  {
    LoopBuildsLists(bases, ms);
    forall name
      ensures ResolveMember(RuntimeNames(ms), name) == ResolveMember(Pick(ms, Named, NameEntry), name)
    {
      NameEncodingsAgree(ms, name);
    }
  }
}
