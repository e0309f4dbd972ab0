/** What names answer after a run of registrations, in the registry and in a class, and
    what counts as fully registered, in the terms of the declarations. */
module StoredNames {
  import opened Core
  import opened ClassMetadata
  import opened Entities
  import opened RegistrySpec
  import opened RegistryCanon
  import opened RegistryOrder
  import opened RegistryRuns
  import opened RegistryTheorems
  import opened LifecycleQueries
  import opened StoredEntities

  // ----- Names in the registry -----

  /** Fundamental types, classes and enums bear their canonical name as soon as anything
      mentions them.  Completed functions and variables bear their identifier and their
      display name, completed classes and enums their display name as well.  Nothing
      bears the empty name. */
  ghost predicate Bears(p: Program, stored: set<Refl>, complete: set<Refl>, r: Refl, name: string) {
    name != "" && r in p.decls
    && match p.decls[r]
       case PlainType(_, canonical, _, isFundamental, _) => r in stored && isFundamental && name == canonical
       case ClassType(display, canonical, _, _, _) =>
         (r in stored && name == canonical) || (r in complete && name == display)
       case EnumType(display, canonical, _, _, _) =>
         (r in stored && name == canonical) || (r in complete && name == display)
       case FreeFunction(identifier, display, _) => r in complete && (name == identifier || name == display)
       case GlobalVariable(identifier, display, _) => r in complete && (name == identifier || name == display)
       case _ => false
  }

  /** r bears the name, and nothing else does. */
  ghost predicate BearsAlone(p: Program, stored: set<Refl>, complete: set<Refl>, r: Refl, name: string) {
    Bears(p, stored, complete, r, name) && forall q | Bears(p, stored, complete, q, name) :: q == r
  }

  ghost function StoredTypes(p: Program, s: State): set<Refl>
    requires p.id.Keys == p.decls.Keys
  {
    set t | t in p.decls && IsType(p, t) && p.id[t] in s.entities
  }

  ghost function Completed(p: Program, rs: seq<Refl>): set<Refl> {
    set r | r in p.decls && RegisteredWith(p, rs, r)
  }

  lemma BearersAre(p: Program, known: set<Refl>, full: set<Refl>, name: string, r: Refl)
    requires forall q | q in known + full :: q in p.decls
    requires (forall t | t in known :: IsType(p, t)) && (forall q | q in full :: IsTopLevel(p, q))
    requires forall q | q in full :: !p.decls[q].PlainType?
    ensures r in BearersOf(Filed(p, known, full), name) <==> Bears(p, known, full, r, name)
  {
    var filed := Filed(p, known, full);
    if r in BearersOf(filed, name) {
      assert (name, r) in filed;
    }
    if Bears(p, known, full, r, name) {
      if r in known && name == DependencyName(p.decls[r]) {
        assert (name, r) in Pairs({DependencyName(p.decls[r])}, r);
      } else {
        assert r in full && name in CompletionNames(p.decls[r]);
        assert (name, r) in Pairs(CompletionNames(p.decls[r]), r);
      }
      assert (name, r) in filed;
    }
  }

  lemma StoredTypesKnown(p: Program, g: Progress)
    requires Sound(p) && Legal(p, g) && g.extra == {}
    ensures StoredTypes(p, Canon(p, g)) == g.known
  {
    forall t ensures t in StoredTypes(p, Canon(p, g)) <==> t in g.known {
      if t in g.known {
        Stored(p, g, t);
      }
      if t in StoredTypes(p, Canon(p, g)) {
        assert p.id[t] in Images(p, Present(p, g));
        var q :| q in Present(p, g) && p.id[q] == p.id[t];
        assert q == t;
        WhyPresent(p, g, t);
        if t in g.full {
          assert t in Needs(p, t);
        }
      }
    }
  }

  lemma CompletedIsFull(p: Program, rs: seq<Refl>)
    requires Sound(p) && AllTopLevel(p, Roots(rs))
    ensures Completed(p, rs) == Reached(p, Roots(rs)).full
  {
    RunIsCanonical(p, rs);
    forall r ensures r in Completed(p, rs) <==> r in Reached(p, Roots(rs)).full {
      CompletedIff(p, rs, r);
    }
  }

  /** After any run a name answers the id of r exactly when r alone bears it. */
  lemma NameMeans(p: Program, rs: seq<Refl>, name: string, r: Refl)
    requires Sound(p) && AllTopLevel(p, Roots(rs)) && r in p.decls && p.id[r] != INVALID_INFO
    ensures IdByName(Built(p, rs), name) == p.id[r]
            <==> BearsAlone(p, StoredTypes(p, Built(p, rs)), Completed(p, rs), r, name)
  {
    RunIsCanonical(p, rs);
    NameAnswers(p, rs, name, r);
    StoredTypesKnown(p, Reached(p, Roots(rs)));
    CompletedIsFull(p, rs);
    LoneBearer(p, Reached(p, Roots(rs)), name, r);
  }

  lemma LoneBearer(p: Program, g: Progress, name: string, r: Refl)
    requires Sound(p) && Legal(p, g)
    ensures forall q | q in g.known + g.full :: q in p.decls
    ensures BearersOf(Filed(p, g.known, g.full), name) == {r} <==> BearsAlone(p, g.known, g.full, r, name)
  {
    var bearers := BearersOf(Filed(p, g.known, g.full), name);
    forall q ensures q in bearers <==> Bears(p, g.known, g.full, q, name) {
      BearersAre(p, g.known, g.full, name, q);
    }
    if bearers == {r} {
      assert r in bearers;
    }
  }

  // ----- What is fully registered -----

  /** After any run a declaration is fully registered exactly when it is a plain type that
      is stored, or was registered, or a class deriving from it was. */
  lemma FullyRegisteredIff(p: Program, rs: seq<Refl>, r: Refl)
    requires Sound(p) && AllTopLevel(p, Roots(rs)) && r in p.decls
    ensures IsFull(Built(p, rs), p.id[r]) <==>
              || (p.decls[r].PlainType? && p.id[r] in Built(p, rs).entities)
              || RegisteredWith(p, rs, r)
    ensures p.id[r] in Built(p, rs).materialization ==> p.id[r] in Built(p, rs).entities
  {
    RunIsCanonical(p, rs);
    var g := Reached(p, Roots(rs));
    CompletedIff(p, rs, r);
    StoredTypesKnown(p, g);
    assert IsType(p, r) ==> (r in StoredTypes(p, Canon(p, g)) <==> p.id[r] in Canon(p, g).entities);
    FullIff(p, g, r);
  }

  lemma FullIff(p: Program, g: Progress, r: Refl)
    requires Sound(p) && Legal(p, g) && r in p.decls
    ensures IsFull(Canon(p, g), p.id[r]) <==> r in g.full || (p.decls[r].PlainType? && r in g.known)
    ensures p.id[r] in Canon(p, g).materialization ==> p.id[r] in Canon(p, g).entities
  {
    var id := p.id[r];
    if r in g.known + g.full {
      assert id in Images(p, g.known + g.full) && ReflOf(p, id) == r;
      Stored(p, g, r);
    }
    if id in Images(p, g.known + g.full) {
      var q :| q in g.known + g.full && p.id[q] == id;
      assert q == r;
    }
  }

  // ----- Names in a class -----

  /** Member k is listed under the name. */
  ghost predicate MemberNamed(p: Program, ms: seq<Refl>, k: int, name: string) {
    0 <= k < |ms| && IsListed(p, ms[k]) && IdentifierOf(p, ms[k]) == Some(name)
  }

  ghost predicate OnlyNamed(p: Program, ms: seq<Refl>, k: int, name: string) {
    MemberNamed(p, ms, k, name) && forall j | MemberNamed(p, ms, j, name) :: j == k
  }

  /** What looking a name up among these members should answer. */
  ghost predicate NameFinds(p: Program, ms: seq<Refl>, name: string, id: Info) {
    && (forall k | OnlyNamed(p, ms, k, name) :: ms[k] in p.id && id == p.id[ms[k]])
    && ((forall k :: !OnlyNamed(p, ms, k, name)) ==> id == INVALID_INFO)
  }

  ghost predicate NothingNamed(p: Program, ms: seq<Refl>, name: string) {
    forall k :: !MemberNamed(p, ms, k, name)
  }

  lemma NamedElsewhere(p: Program, front: seq<Refl>, r: Refl, name: string)
    requires !IsListed(p, r) || IdentifierOf(p, r) != Some(name)
    ensures NothingNamed(p, front + [r], name) <==> NothingNamed(p, front, name)
    ensures forall k :: OnlyNamed(p, front + [r], k, name) <==> OnlyNamed(p, front, k, name)
  {
    var ms := front + [r];
    forall k ensures MemberNamed(p, ms, k, name) <==> MemberNamed(p, front, k, name) {
      assert 0 <= k < |front| ==> ms[k] == front[k];
    }
  }

  lemma NamedHere(p: Program, front: seq<Refl>, r: Refl, name: string)
    requires IsListed(p, r) && IdentifierOf(p, r) == Some(name)
    ensures !NothingNamed(p, front + [r], name)
    ensures forall k :: OnlyNamed(p, front + [r], k, name) <==> (k == |front| && NothingNamed(p, front, name))
  {
    var ms := front + [r];
    forall k ensures MemberNamed(p, ms, k, name) <==> (MemberNamed(p, front, k, name) || k == |front|) {
      assert 0 <= k < |front| ==> ms[k] == front[k];
    }
    assert MemberNamed(p, ms, |front|, name);
    if j :| MemberNamed(p, front, j, name) {
      assert MemberNamed(p, ms, j, name);
    }
  }

  /** The index over some members answers this name as it should. */
  ghost predicate IndexRight(p: Program, ms: seq<Refl>, names: NameIndex, name: string) {
    && (NothingNamed(p, ms, name) <==> Bearers(names, name) == 0)
    && NameFinds(p, ms, name, UniqueOrInvalid(names, name))
  }

  lemma IndexHere(p: Program, front: seq<Refl>, r: Refl, names: NameIndex, id: Info, name: string)
    requires IndexRight(p, front, names, name) && IsListed(p, r) && IdentifierOf(p, r) == Some(name)
    requires r in p.id && id == p.id[r]
    ensures IndexRight(p, front + [r], names + [(name, id)], name)
  {
    NamedHere(p, front, r, name);
    UniqueHere(names, (name, id), name);
    assert (front + [r])[|front|] == r;
    if NothingNamed(p, front, name) {
      assert OnlyNamed(p, front + [r], |front|, name);
    }
  }

  lemma FindsElsewhere(p: Program, front: seq<Refl>, r: Refl, name: string, id: Info)
    requires NameFinds(p, front, name, id) && (!IsListed(p, r) || IdentifierOf(p, r) != Some(name))
    ensures NameFinds(p, front + [r], name, id)
  {
    NamedElsewhere(p, front, r, name);
    forall k | OnlyNamed(p, front + [r], k, name) ensures (front + [r])[k] in p.id && id == p.id[(front + [r])[k]] {
      assert OnlyNamed(p, front, k, name);
      assert (front + [r])[k] == front[k];
    }
    if k :| OnlyNamed(p, front, k, name) {
      assert OnlyNamed(p, front + [r], k, name);
    }
  }

  lemma IndexElsewhere(p: Program, front: seq<Refl>, r: Refl, names: NameIndex, longer: NameIndex, name: string)
    requires IndexRight(p, front, names, name) && (!IsListed(p, r) || IdentifierOf(p, r) != Some(name))
    requires longer == names || (|longer| == |names| + 1 && longer[..|names|] == names && longer[|names|].0 != name)
    ensures IndexRight(p, front + [r], longer, name)
  {
    NamedElsewhere(p, front, r, name);
    FindsElsewhere(p, front, r, name, UniqueOrInvalid(names, name));
    if longer != names {
      UniqueElsewhere(names, longer[|names|], name);
      assert longer == names + [longer[|names|]];
    }
  }

  lemma {:induction false} NamesFind(p: Program, rs: seq<Refl>, ms: seq<Member>, name: string)
    requires Aligned(p, rs, ms)
    ensures IndexRight(p, rs, Pick(ms, Named, NameEntry), name)
  {
    if rs != [] {
      var front, r, before, m := rs[..|rs| - 1], rs[|rs| - 1], ms[..|ms| - 1], ms[|ms| - 1];
      assert AlignedAt(p, r, m);
      assert forall k | 0 <= k < |front| :: AlignedAt(p, rs[k], ms[k]);
      NamesFind(p, front, before, name);
      assert rs == front + [r];
      var names := Pick(before, Named, NameEntry);
      if IsListed(p, r) && IdentifierOf(p, r) == Some(name) {
        IndexHere(p, front, r, names, m.id, name);
      } else {
        IndexElsewhere(p, front, r, names, Pick(ms, Named, NameEntry), name);
      }
    }
  }

  lemma ResolvesUnique(names: NameIndex, name: string)
    ensures ResolveMember(names, name) == UniqueOrInvalid(names, name)
  {
    BearersCount(names, name);
  }

  /** After any run, looking a name up in a completed class finds the only listed member
      with that identifier, and answers the invalid id when there is none or more than one. */
  lemma MemberNameMeans(p: Program, rs: seq<Refl>, c: Refl, name: string)
    requires Sound(p) && AllTopLevel(p, Roots(rs)) && RegisteredWith(p, rs, c)
    requires c in p.decls && p.decls[c].ClassType?
    ensures var reg := Built(p, rs).entities;
            && p.id[c] in reg && reg[p.id[c]].ClassEntity?
            && NameFinds(p, p.decls[c].members, name, ResolveMember(reg[p.id[c]].lists.names, name))
  {
    RunIsCanonical(p, rs);
    CompletedIff(p, rs, c);
    FullClassStored(p, Reached(p, Roots(rs)), c);
    var ms := MembersOf(p, c);
    MembersAligned(p, c);
    NamesFind(p, p.decls[c].members, ms, name);
    NameEncodingsAgree(ms, name);
    ResolvesUnique(Pick(ms, Named, NameEntry), name);
  }
}
