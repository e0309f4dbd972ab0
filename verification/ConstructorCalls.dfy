/** How a reflected constructor is called: which arguments lookup::get_constructor
    lets through (include/cmm/meta.hpp), and which of those the constructor thunk
    then refuses (include/cmm/detail/invocation/thunk.hpp). */
module ConstructorCalls {
  import opened Core
  import opened Values

  /** What a type is once references and qualifiers are gone.  An array decays to a
      pointer to its elements, and an array of const to a pointer to const; pointerId and
      constPointerId are the ids of those two.  Everything else decays to itself. */
  datatype Base =
    | EnumBase(underlyingId: Info)
    | ArrayBase(pointerId: Info, constPointerId: Info)
    | OtherBase(copyable: bool)

  /** valueId: the id of cmm::Value; base: every other type, by its id. */
  datatype Types = Types(valueId: Info, base: Info -> Base)
  {
    function BaseOf(typeId: Info): Base {
      if typeId == valueId then OtherBase(true) else base(typeId)
    }
  }

  datatype Passing = ByValue | ByReference(isConst: bool, isRvalue: bool)

  /** typeId: hash_entity of remove_cvref of the parameter's type.  For a reference to an
      array, isConst tells whether the elements are const. */
  datatype Parameter = Parameter(typeId: Info, passing: Passing)

  datatype Constructor = Constructor(id: Info, parameters: seq<Parameter>)

  /** The expression passed: an lvalue, a const lvalue, an rvalue or a const rvalue. */
  datatype Category = Mutable | Constant | Temporary | ConstTemporary

  /** The two fields of a cmm::Value that a thunk looks at. */
  datatype Passed = Passed(typeId: Info, policy: Policy)

  /** An expression, with hash_entity of remove_cvref of its type; or a cmm::Value that is
      an rvalue: it is not wrapped but moved, or copied when const, so that the thunk sees
      what it holds. */
  datatype Argument =
    | Expression(typeId: Info, category: Category)
    | Held(isConst: bool, held: Passed, copyable: bool)

  function TypeIdOf(types: Types, a: Argument): Info {
    if a.Expression? then a.typeId else types.valueId
  }

  /** hash_entity of decay of a type, or of that type with const. */
  function Decayed(types: Types, typeId: Info, isConst: bool): Info {
    match types.BaseOf(typeId)
    case ArrayBase(pointerId, constPointerId) => if isConst then constPointerId else pointerId
    case _ => typeId
  }

  // ----- Lookup -----

  predicate TypesMatch(types: Types, c: Constructor, args: seq<Argument>) {
    |c.parameters| == |args| && forall i | 0 <= i < |args| :: c.parameters[i].typeId == TypeIdOf(types, args[i])
  }

  /** The first constructor whose parameter types, references and qualifiers aside,
      are those of the arguments. */
  function FirstMatch(types: Types, cs: seq<Constructor>, args: seq<Argument>): (found: Option<Constructor>)
    ensures found.Some? ==> found.value in cs && TypesMatch(types, found.value, args)
    ensures found.None? <==> forall c | c in cs :: !TypesMatch(types, c, args)
  {
    if cs == [] then None
    else if TypesMatch(types, cs[0], args) then Some(cs[0])
    else FirstMatch(types, cs[1..], args)
  }

  // ----- The thunk -----

  /** Copying a const cmm::Value aborts when its object cannot be copied. */
  predicate Makeable(a: Argument) {
    a.Held? && a.isConst ==> a.copyable
  }

  /** detail::make_argument_value.  Value::ref and Value::cref deduce the type without
      const; Value(T&&) decays the type it is given. */
  function MakeArgumentValue(types: Types, a: Argument): Passed {
    match a
    case Expression(typeId, Mutable) => Passed(Decayed(types, typeId, false), MutRef)
    case Expression(typeId, Constant) => Passed(Decayed(types, typeId, false), ConstRef)
    case Expression(typeId, Temporary) => Passed(Decayed(types, typeId, false), Owned)
    case Expression(typeId, ConstTemporary) => Passed(Decayed(types, typeId, true), Owned)
    case Held(_, held, _) => held
  }

  /** is_compatible_argument. */
  predicate CompatibleArgument(argId: Info, policy: Policy, paramId: Info, isRef: bool, isConst: bool, isRvalue: bool) {
    if argId != paramId then false
    else if !isRef then true
    else if isConst then true
    else if isRvalue then policy == Owned || policy == RvalueRef
    else policy == MutRef
  }

  predicate Compatible(types: Types, p: Parameter, v: Passed) {
    var isConst := p.passing.ByReference? && p.passing.isConst;
    CompatibleArgument(v.typeId, v.policy, Decayed(types, p.typeId, isConst), p.passing.ByReference?, isConst,
                       p.passing.ByReference? && p.passing.isRvalue)
  }

  /** std::is_copy_constructible_v; arrays are not. */
  predicate Copyable(base: Base) {
    base.EnumBase? || (base.OtherBase? && base.copyable)
  }

  /** is_argument_valid. */
  predicate ArgumentValid(types: Types, p: Parameter, v: Passed) {
    var base := types.BaseOf(p.typeId);
    if base.EnumBase? && p.passing.ByValue? && v.typeId == base.underlyingId then true
    else if !Compatible(types, p, v) then false
    else if p.passing.ByValue? && !Copyable(base) then v.policy == Owned || v.policy == RvalueRef
    else true
  }

  /** The constructor thunk, up to the call of the constructor itself. */
  function ThunkVerdict(types: Types, c: Constructor, values: seq<Passed>): Error {
    if |values| != |c.parameters| then InvalidArgumentCount
    else if exists i :: 0 <= i < |values| && !ArgumentValid(types, c.parameters[i], values[i]) then InvalidArgumentType
    else Success
  }

  function MakeArgumentValues(types: Types, args: seq<Argument>): (r: seq<Passed>)
    ensures |r| == |args| && forall i | 0 <= i < |r| :: r[i] == MakeArgumentValue(types, args[i])
  {
    seq(|args|, i requires 0 <= i < |args| => MakeArgumentValue(types, args[i]))
  }

  // ----- What a parameter takes -----

  /** The type ids that a parameter takes: its own, for an enum by value that of the
      integers underlying it as well, and for an array that of the pointer it decays to. */
  ghost function IdsTaken(types: Types, p: Parameter): set<Info> {
    match types.BaseOf(p.typeId)
    case EnumBase(underlyingId) => if p.passing.ByValue? then {p.typeId, underlyingId} else {p.typeId}
    case ArrayBase(pointerId, constPointerId) =>
      if p.passing.ByReference? && p.passing.isConst then {constPointerId} else {pointerId}
    case OtherBase(_) => {p.typeId}
  }

  /** The policies it takes: a reference to non-const binds to mutable lvalues, an rvalue
      reference to rvalues, and what cannot be copied must be given away. */
  ghost function PoliciesTaken(types: Types, p: Parameter): set<Policy> {
    match p.passing
    case ByReference(true, _) => {Owned, MutRef, ConstRef, RvalueRef}
    case ByReference(false, true) => {Owned, RvalueRef}
    case ByReference(false, false) => {MutRef}
    case ByValue =>
      match types.BaseOf(p.typeId)
      case EnumBase(_) => {Owned, MutRef, ConstRef, RvalueRef}
      case ArrayBase(_, _) => {Owned, RvalueRef}
      case OtherBase(copyable) => if copyable then {Owned, MutRef, ConstRef, RvalueRef} else {Owned, RvalueRef}
  }

  /** Whatever the values are, a thunk answers for them so. */
  lemma ThunkAnswers(types: Types, c: Constructor, values: seq<Passed>)
    ensures ThunkVerdict(types, c, values) == Success <==>
              && |values| == |c.parameters|
              && forall i | 0 <= i < |values| ::
                   && values[i].typeId in IdsTaken(types, c.parameters[i])
                   && values[i].policy in PoliciesTaken(types, c.parameters[i])
    ensures ThunkVerdict(types, c, values) == InvalidArgumentCount <==> |values| != |c.parameters|
    ensures ThunkVerdict(types, c, values) in {Success, InvalidArgumentCount, InvalidArgumentType}
  {
    if |values| == |c.parameters| {
      forall i | 0 <= i < |values|
        ensures ArgumentValid(types, c.parameters[i], values[i]) <==>
                  && values[i].typeId in IdsTaken(types, c.parameters[i])
                  && values[i].policy in PoliciesTaken(types, c.parameters[i])
      {
        ValueTaken(types, c.parameters[i], values[i]);
      }
    }
  }

  lemma ValueTaken(types: Types, p: Parameter, v: Passed)
    ensures ArgumentValid(types, p, v) <==> v.typeId in IdsTaken(types, p) && v.policy in PoliciesTaken(types, p)
  {
    assert v.policy in {Owned, MutRef, ConstRef, RvalueRef} by {
      match v.policy {
        case Owned =>
        case MutRef =>
        case ConstRef =>
        case RvalueRef =>
      }
    }
  }

  // ----- What is refused -----

  predicate IsRvalue(category: Category) {
    category.Temporary? || category.ConstTemporary?
  }

  /** A reference to non-const takes mutable lvalues only, an rvalue reference rvalues
      only, a reference to const anything, and a parameter that cannot be copied must be
      moved into. */
  predicate Takes(base: Base, passing: Passing, category: Category) {
    match passing
    case ByValue => Copyable(base) || IsRvalue(category)
    case ByReference(isConst, isRvalue) => isConst || (if isRvalue then IsRvalue(category) else category == Mutable)
  }

  /** Arrays bind only where const stands on both sides or on neither, and of the four
      kinds of expression only a const rvalue keeps its const. */
  predicate ConstAgrees(base: Base, passing: Passing, category: Category) {
    match base
    case ArrayBase(pointerId, constPointerId) =>
      pointerId == constPointerId || ((passing.ByReference? && passing.isConst) <==> category == ConstTemporary)
    case _ => true
  }

  /** A cmm::Value passed on for a parameter of type cmm::Value: it must hold another
      cmm::Value, by a policy that suits the reference. */
  predicate HeldBinds(types: Types, passing: Passing, held: Passed) {
    held.typeId == types.valueId
    && match passing
       case ByValue => true
       case ByReference(isConst, isRvalue) =>
         isConst || (if isRvalue then held.policy == Owned || held.policy == RvalueRef else held.policy == MutRef)
  }

  predicate Binds(types: Types, p: Parameter, a: Argument) {
    match a
    case Expression(typeId, category) =>
      Takes(types.BaseOf(typeId), p.passing, category) && ConstAgrees(types.BaseOf(typeId), p.passing, category)
    case Held(_, held, _) => HeldBinds(types, p.passing, held)
  }

  lemma ValidIffBinds(types: Types, p: Parameter, a: Argument)
    requires p.typeId == TypeIdOf(types, a)
    ensures ArgumentValid(types, p, MakeArgumentValue(types, a)) <==> Binds(types, p, a)
  {
  }

  predicate AllBind(types: Types, c: Constructor, args: seq<Argument>)
    requires |c.parameters| == |args|
  {
    forall i | 0 <= i < |args| :: Binds(types, c.parameters[i], args[i])
  }

  /** The thunk of the constructor that was found refuses the call exactly when some
      argument does not bind. */
  lemma ThunkAcceptsIff(types: Types, c: Constructor, args: seq<Argument>)
    requires TypesMatch(types, c, args)
    ensures ThunkVerdict(types, c, MakeArgumentValues(types, args)) == Success <==> AllBind(types, c, args)
    ensures ThunkVerdict(types, c, MakeArgumentValues(types, args)) in {Success, InvalidArgumentType}
  {
    var values := MakeArgumentValues(types, args);
    forall i | 0 <= i < |args|
      ensures ArgumentValid(types, c.parameters[i], values[i]) <==> Binds(types, c.parameters[i], args[i])
    {
      ValidIffBinds(types, c.parameters[i], args[i]);
    }
  }

  /** Lookup followed by the thunk answers Success. */
  predicate CallAccepted(types: Types, cs: seq<Constructor>, args: seq<Argument>) {
    var found := FirstMatch(types, cs, args);
    found.Some? && ThunkVerdict(types, found.value, MakeArgumentValues(types, args)) == Success
  }

  lemma OneParameter(types: Types, c: Constructor, a: Argument)
    requires |c.parameters| == 1 && c.parameters[0].typeId == TypeIdOf(types, a)
    ensures CallAccepted(types, [c], [a]) <==> Binds(types, c.parameters[0], a)
    ensures TypesMatch(types, c, [a])
  {
    ThunkAcceptsIff(types, c, [a]);
    assert [a][0] == a;
  }

  // ----- Inputs that show it -----

  /** The array types whose decayed forms differ. */
  predicate IsArray(types: Types, typeId: Info) {
    var base := types.BaseOf(typeId);
    base.ArrayBase? && base.pointerId != base.constPointerId
  }

  /** A reference to an array of const takes no lvalue at all, not even a string literal:
      lookup finds S(const char (&)[6]) for "hello", and the thunk refuses it. */
  lemma StringLiteralRefused(types: Types, arrayId: Info, id: Info, category: Category)
    requires IsArray(types, arrayId) && !IsRvalue(category)
    ensures var c := Constructor(id, [Parameter(arrayId, ByReference(true, false))]);
            FirstMatch(types, [c], [Expression(arrayId, category)]) == Some(c)
            && !CallAccepted(types, [c], [Expression(arrayId, category)])
  {
    OneParameter(types, Constructor(id, [Parameter(arrayId, ByReference(true, false))]), Expression(arrayId, category));
  }

  /** An rvalue cmm::Value is refused by S(Value) unless it holds a cmm::Value; as an
      lvalue the same object is accepted. */
  lemma ValueUnwrapped(types: Types, id: Info, isConst: bool, held: Passed, copyable: bool)
    ensures var c := Constructor(id, [Parameter(types.valueId, ByValue)]);
            && (CallAccepted(types, [c], [Held(isConst, held, copyable)]) <==> held.typeId == types.valueId)
            && CallAccepted(types, [c], [Expression(types.valueId, Mutable)])
  {
    var c := Constructor(id, [Parameter(types.valueId, ByValue)]);
    OneParameter(types, c, Held(isConst, held, copyable));
    OneParameter(types, c, Expression(types.valueId, Mutable));
  }

  /** Only the first match is tried.  With S(T&) declared before S(const T&), a temporary
      T is refused; in the other order it is accepted exactly when T is no array. */
  lemma LaterOverloadIgnored(types: Types, typeId: Info, first: Info, second: Info)
    ensures var byRef := Constructor(first, [Parameter(typeId, ByReference(false, false))]);
            var byConstRef := Constructor(second, [Parameter(typeId, ByReference(true, false))]);
            var args := [Expression(typeId, Temporary)];
            && !CallAccepted(types, [byRef], args) && !CallAccepted(types, [byRef, byConstRef], args)
            && (CallAccepted(types, [byConstRef, byRef], args) <==> !IsArray(types, typeId))
  {
    var byRef := Constructor(first, [Parameter(typeId, ByReference(false, false))]);
    var byConstRef := Constructor(second, [Parameter(typeId, ByReference(true, false))]);
    OneParameter(types, byRef, Expression(typeId, Temporary));
    OneParameter(types, byConstRef, Expression(typeId, Temporary));
  }
}
