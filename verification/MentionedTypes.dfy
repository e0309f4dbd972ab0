/** Which types a run of registrations stores: those that were registered, those that were
    completed as base classes, and those that something stored mentions. */
module MentionedTypes {
  import opened Core
  import opened ClassMetadata
  import opened Entities
  import opened RegistrySpec
  import opened RegistryCanon
  import opened RegistryOrder
  import opened RegistryRuns
  import opened RegistryTheorems
  import opened LifecycleQueries
  import opened StoredEntities
  import opened StoredNames

  /** The stored declaration r mentions the type t: as what it points to, refers to or has
      as elements, or as its own, return, underlying, parameter or decayed type. */
  ghost predicate Mentions(p: Program, complete: set<Refl>, r: Refl, t: Refl) {
    r in p.decls
    && match p.decls[r]
       case PlainType(_, _, _, _, target) => target == Some(t)
       case EnumType(_, _, _, underlying, _) => r in complete && underlying == t
       case FreeFunction(_, _, sig) => sig.returnType == Some(t)
       case FunctionDecl(_, _, _, _, _, _, _, sig) => sig.returnType == Some(t)
       case GlobalVariable(_, _, varType) => varType == t
       case DataMemberDecl(_, _, _, _, _, memberType) => memberType == t
       case ParameterDecl(_, _, _, paramType, decayedType) => paramType == t || decayedType == t
       case _ => false
  }

  ghost predicate MentionedIn(p: Program, present: set<Refl>, complete: set<Refl>, t: Refl) {
    exists r :: r in present && Mentions(p, complete, r, t)
  }

  ghost predicate Justified(p: Program, roots: set<Refl>, present: set<Refl>, complete: set<Refl>, t: Refl) {
    t in roots || t in complete || MentionedIn(p, present, complete, t)
  }

  // ----- Everything known is justified -----

  lemma {:induction false} ChainJustified(p: Program, g: Progress, roots: set<Refl>, u: Refl, t: Refl)
    requires Sound(p) && Legal(p, g) && IsType(p, u) && u in g.known && t in Chain(p, u)
    requires Justified(p, roots, Present(p, g), g.full, u)
    ensures Justified(p, roots, Present(p, g), g.full, t)
    decreases p.rank[u]
  {
    if t != u {
      assert DeclWellFormed(p, u);
      var target := p.decls[u].target.value;
      assert target in Chain(p, target);
      assert Mentions(p, g.full, u, target);
      ChainJustified(p, g, roots, target, t);
    }
  }

  /** A type that something present mentions is justified, and so is its chain. */
  lemma MentionedChain(p: Program, g: Progress, roots: set<Refl>, r: Refl, u: Refl, t: Refl)
    requires Sound(p) && Legal(p, g) && r in Present(p, g) && Mentions(p, g.full, r, u)
    requires IsType(p, u) && u in g.known && t in Chain(p, u)
    ensures Justified(p, roots, Present(p, g), g.full, t)
  {
    ChainJustified(p, g, roots, u, t);
  }

  /** t is the type of q, or what it decays to, or in the chain of one of them. */
  ghost predicate ParameterBrings(p: Program, q: Refl, t: Refl)
    requires WellFormed(p) && q in p.decls && p.decls[q].ParameterDecl?
  {
    assert DeclWellFormed(p, q);
    t in Chain(p, p.decls[q].paramType) || t in Chain(p, p.decls[q].decayedType)
  }

  lemma {:induction false} ParameterWhich(p: Program, ps: seq<Refl>, k: nat, t: Refl) returns (j: nat)
    requires WellFormed(p) && k <= |ps|
    requires forall i | 0 <= i < |ps| :: ps[i] in p.decls && p.decls[ps[i]].ParameterDecl?
    requires t in ParameterNeeds(p, ps, k)
    ensures j < k && ParameterBrings(p, ps[j], t)
    decreases k
  {
    j := k - 1;
    if !ParameterBrings(p, ps[j], t) {
      j := ParameterWhich(p, ps, k - 1, t);
    }
  }

  lemma SignatureJustified(p: Program, g: Progress, roots: set<Refl>, f: Refl, t: Refl)
    requires Sound(p) && Legal(p, g) && g.extra == {} && f in Present(p, g)
    requires p.decls[f].FreeFunction? || (p.decls[f].FunctionDecl? && !p.decls[f].kind.Destructor?)
    requires t in SignatureNeeds(p, f)
    ensures Justified(p, roots, Present(p, g), g.full, t)
  {
    assert DeclWellFormed(p, f);
    FunctionNeedsKnown(p, g, f);
    var sig := p.decls[f].signature;
    if sig.returnType.Some? && t in Chain(p, sig.returnType.value) {
      assert sig.returnType.value in Chain(p, sig.returnType.value);
      MentionedChain(p, g, roots, f, sig.returnType.value, t);
    } else {
      ParametersPresent(p, g, f);
      assert ParametersOf(p, f) == sig.parameters;
      var j := ParameterWhich(p, sig.parameters, |sig.parameters|, t);
      var q := sig.parameters[j];
      assert q in ParametersOf(p, f) && DeclWellFormed(p, q);
      ParameterTypesKnown(p, g, f, j);
      if t in Chain(p, p.decls[q].paramType) {
        MentionedChain(p, g, roots, q, p.decls[q].paramType, t);
      } else {
        MentionedChain(p, g, roots, q, p.decls[q].decayedType, t);
      }
    }
  }

  lemma MemberJustified(p: Program, g: Progress, roots: set<Refl>, c: Refl, j: nat, t: Refl)
    requires Sound(p) && Legal(p, g) && g.extra == {} && c in g.full && p.decls[c].ClassType?
    requires j < |p.decls[c].members| && t in MemberNeeds(p, c, MemberAt(p, c, j))
    ensures Justified(p, roots, Present(p, g), g.full, t)
  {
    var m := MemberAt(p, c, j);
    assert DeclWellFormed(p, m);
    IncludedMemberStored(p, g, c, j);
    if p.decls[m].DataMemberDecl? {
      MemberNeedsListed(p, c, j, |p.decls[c].members|);
      ClassNeedsKnown(p, g, c);
      assert p.decls[m].memberType in Chain(p, p.decls[m].memberType);
      MentionedChain(p, g, roots, m, p.decls[m].memberType, t);
    } else {
      SignatureJustified(p, g, roots, m, t);
    }
  }

  /** Registering the class of base j makes t known. */
  ghost predicate BaseBrings(p: Program, c: Refl, j: nat, t: Refl)
    requires WellFormed(p) && c in p.decls && p.decls[c].ClassType? && j < |p.decls[c].bases|
  {
    t in Needs(p, BaseTypeAt(p, c, j))
  }

  lemma {:induction false} BaseWhich(p: Program, c: Refl, k: nat, t: Refl) returns (j: nat)
    requires WellFormed(p) && c in p.decls && p.decls[c].ClassType? && k <= |p.decls[c].bases|
    requires t in BasesNeeds(p, c, k)
    ensures j < k && BaseBrings(p, c, j, t)
    decreases k
  {
    j := k - 1;
    if !BaseBrings(p, c, j, t) {
      j := BaseWhich(p, c, k - 1, t);
    }
  }

  lemma {:induction false} ClassJustified(p: Program, g: Progress, roots: set<Refl>, c: Refl, t: Refl)
    requires Sound(p) && Legal(p, g) && g.extra == {} && c in g.full && p.decls[c].ClassType? && t in Needs(p, c)
    ensures Justified(p, roots, Present(p, g), g.full, t)
    decreases p.rank[c], 0
  {
    var bases, members := p.decls[c].bases, p.decls[c].members;
    if t in BasesNeeds(p, c, |bases|) {
      var j := BaseWhich(p, c, |bases|, t);
      BaseClassFull(p, g, c, j);
      NeedsJustified(p, g, roots, BaseTypeAt(p, c, j), t);
    } else if t != c {
      assert DeclWellFormed(p, c);
      var j :| 0 <= j < |members| && t in MemberNeeds(p, c, members[j]);
      MemberJustified(p, g, roots, c, j, t);
    }
  }

  lemma {:induction false} NeedsJustified(p: Program, g: Progress, roots: set<Refl>, r: Refl, t: Refl)
    requires Sound(p) && Legal(p, g) && g.extra == {} && IsTopLevel(p, r) && t in Needs(p, r)
    requires if p.decls[r].PlainType? then r in roots && r in g.known else r in g.full
    ensures Justified(p, roots, Present(p, g), g.full, t)
    decreases p.rank[r], 1
  {
    assert DeclWellFormed(p, r);
    match p.decls[r]
    case PlainType(_, _, _, _, _) => ChainJustified(p, g, roots, r, t);
    case FreeFunction(_, _, _) => SignatureJustified(p, g, roots, r, t);
    case GlobalVariable(_, _, varType) =>
      assert varType in Chain(p, varType);
      MentionedChain(p, g, roots, r, varType, t);
    case EnumType(_, _, _, underlying, _) =>
      if t != r {
        assert underlying in Chain(p, underlying);
        MentionedChain(p, g, roots, r, underlying, t);
      }
    case ClassType(_, _, _, _, _) => ClassJustified(p, g, roots, r, t);
    case _ =>
  }

  // ----- Everything justified is known -----

  lemma MentionedKnown(p: Program, g: Progress, r: Refl, t: Refl)
    requires Sound(p) && Legal(p, g) && g.extra == {} && r in Present(p, g) && Mentions(p, g.full, r, t)
    ensures t in g.known
  {
    assert DeclWellFormed(p, r);
    WhyPresent(p, g, r);
    match p.decls[r]
    case PlainType(_, _, _, _, _) => assert t in Chain(p, t) && t in Chain(p, r);
    case EnumType(_, _, _, _, _) => assert t in Chain(p, t) && t in Needs(p, r);
    case GlobalVariable(_, _, _) => assert t in Chain(p, t) && t in Needs(p, r);
    case FreeFunction(_, _, _) => ReturnTypeKnown(p, g, r, t);
    case FunctionDecl(_, _, _, _, _, _, _, _) => ReturnTypeKnown(p, g, r, t);
    case DataMemberDecl(_, _, _, _, _, _) => DataTypeKnown(p, g, r);
    case ParameterDecl(_, _, _, _, _) =>
      var f := ParameterFunction(p, g, r);
      var i :| 0 <= i < |ParametersOf(p, f)| && ParametersOf(p, f)[i] == r;
      FunctionNeedsKnown(p, g, f);
      ParameterTypesKnown(p, g, f, i);
    case _ =>
  }

  lemma ReturnTypeKnown(p: Program, g: Progress, f: Refl, t: Refl)
    requires Sound(p) && Legal(p, g) && g.extra == {} && f in Present(p, g)
    requires (p.decls[f].FreeFunction? || p.decls[f].FunctionDecl?) && p.decls[f].signature.returnType == Some(t)
    ensures t in g.known
  {
    assert DeclWellFormed(p, f);
    FunctionNeedsKnown(p, g, f);
    assert t in Chain(p, t) && t in SignatureNeeds(p, f);
  }

  lemma DataTypeKnown(p: Program, g: Progress, m: Refl)
    requires Sound(p) && Legal(p, g) && g.extra == {} && m in Present(p, g) && p.decls[m].DataMemberDecl?
    ensures p.decls[m].memberType in g.known
  {
    assert DeclWellFormed(p, m);
    WhyPresent(p, g, m);
    var c := TopOwner(p, m);
    OnlyClassesHaveMembers(p, c, m);
    var j := ClassChild(p, g, c, m);
    MemberEntityOwner(p, c, MemberAt(p, c, j), m);
    assert p.decls[m].memberType in Chain(p, p.decls[m].memberType);
  }

  // ----- The stored types -----

  ghost predicate IsMentioned(p: Program, s: State, complete: set<Refl>, t: Refl)
    requires p.id.Keys == p.decls.Keys
  {
    exists r :: r in p.decls && p.id[r] in s.entities && Mentions(p, complete, r, t)
  }

  lemma MentionedAlike(p: Program, g: Progress, t: Refl)
    requires Sound(p) && Legal(p, g)
    ensures IsMentioned(p, Canon(p, g), g.full, t) <==> MentionedIn(p, Present(p, g), g.full, t)
  {
    var s := Canon(p, g);
    if r :| r in p.decls && p.id[r] in s.entities && Mentions(p, g.full, r, t) {
      assert p.id[r] in Images(p, Present(p, g));
      var q :| q in Present(p, g) && p.id[q] == p.id[r];
      assert q == r;
    }
    if r :| r in Present(p, g) && Mentions(p, g.full, r, t) {
      Stored(p, g, r);
    }
  }

  lemma KnownIff(p: Program, roots: set<Refl>, t: Refl)
    requires Sound(p) && AllTopLevel(p, roots) && IsType(p, t) && Legal(p, Reached(p, roots))
    ensures var g := Reached(p, roots);
            t in g.known <==> Justified(p, roots, Present(p, g), g.full, t)
  {
    var g := Reached(p, roots);
    if t in g.known {
      var r :| r in roots && t in Needs(p, r);
      RootReached(p, roots, r);
      NeedsJustified(p, g, roots, r, t);
    }
    if t in roots {
      RootReached(p, roots, t);
    }
    if t in g.full {
      assert t in Needs(p, t);
    }
    if MentionedIn(p, Present(p, g), g.full, t) {
      var r :| r in Present(p, g) && Mentions(p, g.full, r, t);
      MentionedKnown(p, g, r, t);
    }
  }

  lemma RootReached(p: Program, roots: set<Refl>, r: Refl)
    requires Sound(p) && AllTopLevel(p, roots) && r in roots
    ensures IsType(p, r) ==> r in Reached(p, roots).known
    ensures !p.decls[r].PlainType? ==> r in Reached(p, roots).full
  {
    if IsType(p, r) {
      assert r in Needs(p, r);
    }
    if !p.decls[r].PlainType? {
      assert r in Fulls(p, r);
    }
  }

  /** After any run exactly these types are stored: the registered ones, the classes they
      inherit from, and every type that a stored declaration mentions. */
  lemma TypeStoredIff(p: Program, rs: seq<Refl>, t: Refl)
    requires Sound(p) && AllTopLevel(p, Roots(rs)) && IsType(p, t)
    ensures p.id[t] in Built(p, rs).entities <==>
              t in rs || RegisteredWith(p, rs, t) || IsMentioned(p, Built(p, rs), Completed(p, rs), t)
  {
    RunIsCanonical(p, rs);
    var g := Reached(p, Roots(rs));
    CompletedIsFull(p, rs);
    CompletedIff(p, rs, t);
    StoredTypesKnown(p, g);
    assert t in StoredTypes(p, Canon(p, g)) <==> p.id[t] in Canon(p, g).entities;
    MentionedAlike(p, g, t);
    KnownIff(p, Roots(rs), t);
  }
}
