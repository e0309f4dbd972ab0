/** include/cmm/detail/hash/info_hash.hpp: entity ids as 64-bit FNV-1a hashes
    (section 2 of draft-eastlake-fnv) folded over the parent's id. */
module InfoHash {
  import opened Core

  const PRIME: nat := 0x100000001b3

  /** PRIME * INVERSE is 1 modulo 2^64. */
  const INVERSE: nat := 0xce965057aff6957b

  type Hash = h: nat | h < 0x1_0000_0000_0000_0000

  // ----- Exclusive or, bit by bit -----

  function Xor(a: nat, b: nat): nat
    decreases a + b
  {
    if a == 0 && b == 0 then 0
    else (if a % 2 == b % 2 then 0 else 1) + 2 * Xor(a / 2, b / 2)
  }

  lemma {:induction false} XorTwice(a: nat, b: nat)
    ensures Xor(Xor(a, b), b) == a
    decreases a + b
  {
    if a != 0 || b != 0 {
      XorTwice(a / 2, b / 2);
      var x := Xor(a, b);
      assert x / 2 == Xor(a / 2, b / 2);
      assert x % 2 == if a % 2 == b % 2 then 0 else 1;
    }
  }

  lemma {:induction false} XorCommutes(a: nat, b: nat)
    ensures Xor(a, b) == Xor(b, a)
    decreases a + b
  {
    if a != 0 || b != 0 {
      XorCommutes(a / 2, b / 2);
    }
  }

  function Pow2(n: nat): nat {
    if n == 0 then 1 else 2 * Pow2(n - 1)
  }

  lemma {:induction false} XorBound(a: nat, b: nat, n: nat)
    requires a < Pow2(n) && b < Pow2(n)
    ensures Xor(a, b) < Pow2(n)
    decreases n
  {
    if n > 0 {
      XorBound(a / 2, b / 2, n - 1);
    }
  }

  lemma {:induction false} Pow2Sum(a: nat, b: nat)
    ensures Pow2(a + b) == Pow2(a) * Pow2(b)
  {
    if a > 0 {
      Pow2Sum(a - 1, b);
    }
  }

  lemma Pow64()
    ensures Pow2(64) == WORD
  {
    Pow2Sum(8, 8);
    Pow2Sum(16, 16);
    Pow2Sum(32, 32);
  }

  function XorHash(h: Hash, c: nat): (r: Hash)
    requires c < WORD
  {
    Pow64();
    XorBound(h, c, 64);
    Xor(h, c)
  }

  // ----- The multiplication -----

  lemma ReduceMultiple(x: nat, k: int)
    requires x < WORD
    ensures (x + WORD * k) % WORD == x
  {
  }

  lemma InverseProduct()
    ensures PRIME * INVERSE == 1 + WORD * ((PRIME * INVERSE) / WORD)
  {
  }

  function Times(h: Hash, factor: nat): Hash {
    (h * factor) % WORD
  }

  /** Multiplying by the prime is undone by multiplying by its inverse. */
  lemma TimesInverse(x: Hash, a: nat, b: nat)
    requires a * b == 1 + WORD * ((a * b) / WORD)
    ensures Times(Times(x, a), b) == x
  {
    var q, t := (x * a) / WORD, (a * b) / WORD;
    var r := Times(x, a);
    assert x * a == r + WORD * q;
    calc {
      r * b;
      (x * a - WORD * q) * b;
      x * a * b - WORD * q * b;
      { assert x * a * b == x * (a * b); }
      x * (1 + WORD * t) - WORD * q * b;
      x + WORD * (x * t) - WORD * (q * b);
      x + WORD * (x * t - q * b);
    }
    ReduceMultiple(x, x * t - q * b);
  }

  // ----- One hashing step and its inverse -----

  /** hash ^= c; hash *= PRIME. */
  function Step(h: Hash, c: Byte): Hash {
    Times(XorHash(h, c), PRIME)
  }

  function Unstep(h: Hash, c: Byte): Hash {
    XorHash(Times(h, INVERSE), c)
  }

  /** For each byte the step is a bijection on hash states. */
  lemma StepBijective(h: Hash, c: Byte)
    ensures Unstep(Step(h, c), c) == h
    ensures Step(Unstep(h, c), c) == h
  {
    InverseProduct();
    TimesInverse(XorHash(h, c), PRIME, INVERSE);
    XorTwice(h, c);
    assert INVERSE * PRIME == PRIME * INVERSE;
    TimesInverse(h, INVERSE, PRIME);
    XorTwice(Times(h, INVERSE), c);
  }

  /** From one state, different bytes lead to different states. */
  lemma StepSeparates(h: Hash, c: Byte, d: Byte)
    requires Step(h, c) == Step(h, d)
    ensures c == d
  {
    InverseProduct();
    TimesInverse(XorHash(h, c), PRIME, INVERSE);
    TimesInverse(XorHash(h, d), PRIME, INVERSE);
    XorCommutes(h, c);
    XorCommutes(h, d);
    XorTwice(c, h);
    XorTwice(d, h);
  }

  // ----- Whole strings -----

  function HashBytes(s: seq<Byte>, h: Hash): Hash {
    if s == [] then h else HashBytes(s[1..], Step(h, s[0]))
  }

  function UnhashBytes(s: seq<Byte>, h: Hash): Hash {
    if s == [] then h else Unstep(UnhashBytes(s[1..], h), s[0])
  }

  /** Hashing any fixed string is a bijection of the starting state, so the state
      a hash was folded over can be recovered from the result. */
  lemma {:induction false} HashBijective(s: seq<Byte>, h: Hash)
    ensures UnhashBytes(s, HashBytes(s, h)) == h
    ensures HashBytes(s, UnhashBytes(s, h)) == h
  {
    if s != [] {
      HashBijective(s[1..], Step(h, s[0]));
      HashBijective(s[1..], h);
      StepBijective(h, s[0]);
      StepBijective(UnhashBytes(s[1..], h), s[0]);
    }
  }

  lemma HashInjective(s: seq<Byte>, g: Hash, h: Hash)
    requires HashBytes(s, g) == HashBytes(s, h)
    ensures g == h
  {
    HashBijective(s, g);
    HashBijective(s, h);
  }

  lemma {:induction false} HashJoins(s: seq<Byte>, t: seq<Byte>, h: Hash)
    ensures HashBytes(s + t, h) == HashBytes(t, HashBytes(s, h))
  {
    if s == [] {
      assert s + t == t;
    } else {
      assert (s + t)[1..] == s[1..] + t;
      HashJoins(s[1..], t, Step(h, s[0]));
    }
  }

  /** Strings of one length that differ in exactly one byte never collide. */
  lemma OneByteApart(before: seq<Byte>, c: Byte, d: Byte, after: seq<Byte>, h: Hash)
    requires HashBytes(before + [c] + after, h) == HashBytes(before + [d] + after, h)
    ensures c == d
  {
    HashSpot(before, c, after, h);
    HashSpot(before, d, after, h);
    var g := HashBytes(before, h);
    HashInjective(after, Step(g, c), Step(g, d));
    StepSeparates(g, c, d);
  }

  lemma HashSpot(before: seq<Byte>, c: Byte, after: seq<Byte>, h: Hash)
    ensures HashBytes(before + [c] + after, h) == HashBytes(after, Step(HashBytes(before, h), c))
  {
    HashJoins(before + [c], after, h);
    HashJoins(before, [c], h);
    assert [c][1..] == [];
    assert HashBytes([c], HashBytes(before, h)) == Step(HashBytes(before, h), c);
  }

  /** hash_string. */
  method HashString(str: seq<Byte>, start: Hash) returns (hash: Hash)
    ensures hash == HashBytes(str, start)
  {
    hash := start;
    for i := 0 to |str|
      invariant HashBytes(str, start) == HashBytes(str[i..], hash)
    {
      assert str[i..][1..] == str[i + 1..];
      hash := XorHash(hash, str[i]);
      hash := Times(hash, PRIME);
    }
  }

  // ----- Integers -----

  function IntegerBytes(value: Hash): seq<Byte> {
    LittleEndian(value, 8)
  }

  /** hash_integer. */
  method HashInteger(value: Hash, start: Hash) returns (hash: Hash)
    ensures hash == HashBytes(IntegerBytes(value), start)
  {
    hash := start;
    var rest: nat := value;
    for byte := 0 to 8
      invariant HashBytes(IntegerBytes(value), start) == HashBytes(LittleEndian(rest, 8 - byte), hash)
    {
      var low := rest % 256;
      assert LittleEndian(rest, 8 - byte)[1..] == LittleEndian(rest / 256, 8 - (byte + 1));
      hash := XorHash(hash, low);
      hash := Times(hash, PRIME);
      rest := rest / 256;
    }
  }

  /** The bytes of a text literal of the source. */
  function Text(s: string): (r: seq<Byte>)
    ensures |r| == |s|
  {
    seq(|s|, i requires 0 <= i < |s| => (s[i] as int) % 256)
  }

  lemma SmallInteger(value: nat)
    requires value < 256
    ensures IntegerBytes(value) == [value] + LittleEndian(0, 7)
  {
  }

  // ----- Ids of children -----

  /** What follows the parent's id in a parameter's, a base's, an enumerator's and
      a member's hash (the GCC branch of hash_entity). */
  function ParameterTail(index: Hash, typeId: Hash): seq<Byte> {
    Text("parameter:") + IntegerBytes(index) + (Text(":type:") + IntegerBytes(typeId))
  }

  function BaseTail(typeId: Hash, isVirtual: bool, access: nat): seq<Byte>
    requires access < 3
  {
    Text("base:") + IntegerBytes(typeId) + IntegerBytes(if isVirtual then 1 else 0) + IntegerBytes(access)
  }

  function EnumeratorTail(name: seq<Byte>): seq<Byte> {
    Text("enumerator:") + name
  }

  function DataMemberTail(name: seq<Byte>, typeId: Hash): seq<Byte> {
    Text("member:") + name + (Text(":type:") + IntegerBytes(typeId))
  }

  function OtherMemberTail(name: seq<Byte>): seq<Byte> {
    Text("member:") + name
  }

  /** hash_parameter: the parameter's position in its function's list decides the
      hash; the last lines serve a parameter missing from that list. */
  method HashParameter(functionId: Hash, parameters: seq<nat>, parameter: nat, typeId: Hash,
                       name: seq<Byte>, typeName: seq<Byte>)
    returns (hash: Hash)
    requires |parameters| < WORD
    ensures forall i | 0 <= i < |parameters| && parameters[i] == parameter
                       && (forall j | 0 <= j < i :: parameters[j] != parameter) ::
              hash == HashBytes(ParameterTail(i, typeId), functionId)
    ensures parameter !in parameters ==>
              hash == HashBytes(Text("parameter:") + name + typeName, functionId)
  {
    hash := HashString(Text("parameter:"), functionId);
    ghost var seeded := hash;
    for index := 0 to |parameters|
      invariant hash == seeded
      invariant forall j | 0 <= j < index :: parameters[j] != parameter
    {
      if parameters[index] == parameter {
        hash := HashInteger(index, hash);
        hash := HashString(Text(":type:"), hash);
        hash := HashInteger(typeId, hash);
        HashJoins(Text("parameter:") + IntegerBytes(index), Text(":type:") + IntegerBytes(typeId), functionId);
        HashJoins(Text("parameter:"), IntegerBytes(index), functionId);
        HashJoins(Text(":type:"), IntegerBytes(typeId), HashBytes(IntegerBytes(index), seeded));
        return;
      }
    }
    HashJoins(Text("parameter:") + name, typeName, functionId);
    HashJoins(Text("parameter:"), name, functionId);
    hash := HashString(name, hash);
    hash := HashString(typeName, hash);
  }

  /** hash_base. */
  method HashBase(classId: Hash, typeId: Hash, isVirtual: bool, access: nat) returns (hash: Hash)
    requires access < 3
    ensures hash == HashBytes(BaseTail(typeId, isVirtual, access), classId)
  {
    hash := HashString(Text("base:"), classId);
    hash := HashInteger(typeId, hash);
    hash := HashInteger(if isVirtual then 1 else 0, hash);
    hash := HashInteger(access, hash);
    var flag: Hash := if isVirtual then 1 else 0;
    HashJoins(Text("base:"), IntegerBytes(typeId), classId);
    HashJoins(Text("base:") + IntegerBytes(typeId), IntegerBytes(flag), classId);
    HashJoins(Text("base:") + IntegerBytes(typeId) + IntegerBytes(flag), IntegerBytes(access), classId);
  }

  /** Children built alike under different parents have different ids, whatever
      their kind, name, type, position or flags; the parent's id is recoverable. */
  lemma ParentsSeparateChildren(tail: seq<Byte>, parent: Hash, other: Hash)
    ensures parent != other ==> HashBytes(tail, parent) != HashBytes(tail, other)
    ensures UnhashBytes(tail, HashBytes(tail, parent)) == parent
  {
    HashBijective(tail, parent);
    HashBijective(tail, other);
  }

  lemma SmallPosition(i: nat, typeId: Hash, after: seq<Byte>)
    requires i < 256 && after == LittleEndian(0, 7) + (Text(":type:") + IntegerBytes(typeId))
    ensures ParameterTail(i, typeId) == Text("parameter:") + [i] + after
  {
    SmallInteger(i);
  }

  /** Parameters of one function with the same type, at positions below 256. */
  lemma PositionsSeparateParameters(functionId: Hash, i: nat, j: nat, typeId: Hash)
    requires i < 256 && j < 256 && i != j
    ensures HashBytes(ParameterTail(i, typeId), functionId) != HashBytes(ParameterTail(j, typeId), functionId)
  {
    var after := LittleEndian(0, 7) + (Text(":type:") + IntegerBytes(typeId));
    SmallPosition(i, typeId, after);
    SmallPosition(j, typeId, after);
    if HashBytes(ParameterTail(i, typeId), functionId) == HashBytes(ParameterTail(j, typeId), functionId) {
      OneByteApart(Text("parameter:"), i, j, after, functionId);
    }
  }

  /** Two one-byte flags, each followed by the same zeros. */
  lemma FlagBytes(head: seq<Byte>, x: Byte, y: Byte, a: Byte, b: Byte, zeros: seq<Byte>, h: Hash)
    requires (x != y) != (a != b)
    ensures HashBytes(head + ([x] + zeros) + ([a] + zeros), h) != HashBytes(head + ([y] + zeros) + ([b] + zeros), h)
  {
    if HashBytes(head + ([x] + zeros) + ([a] + zeros), h) == HashBytes(head + ([y] + zeros) + ([b] + zeros), h) {
      if a == b {
        assert forall z: Byte :: head + ([z] + zeros) + ([a] + zeros) == head + [z] + (zeros + ([a] + zeros));
        OneByteApart(head, x, y, zeros + ([a] + zeros), h);
      } else {
        assert forall z: Byte :: head + ([x] + zeros) + ([z] + zeros) == (head + ([x] + zeros)) + [z] + zeros;
        OneByteApart(head + ([x] + zeros), a, b, zeros, h);
      }
    }
  }

  /** Bases of one class with the same type differ when their virtual flags or
      their access levels alone differ. */
  lemma FlagsSeparateBases(classId: Hash, typeId: Hash, v: bool, w: bool, a: nat, b: nat)
    requires a < 3 && b < 3 && (v != w) != (a != b)
    ensures HashBytes(BaseTail(typeId, v, a), classId) != HashBytes(BaseTail(typeId, w, b), classId)
  {
    var x: Byte, y: Byte := if v then 1 else 0, if w then 1 else 0;
    SmallInteger(x);
    SmallInteger(y);
    SmallInteger(a);
    SmallInteger(b);
    FlagBytes(Text("base:") + IntegerBytes(typeId), x, y, a, b, LittleEndian(0, 7), classId);
  }

  /** Names of one length that differ in one character separate enumerators of an
      enum, and members of a class: data members of one type, and all others. */
  lemma NamesSeparateSiblings(parent: Hash, before: seq<Byte>, c: Byte, d: Byte, after: seq<Byte>, typeId: Hash)
    requires c != d
    ensures HashBytes(EnumeratorTail(before + [c] + after), parent)
            != HashBytes(EnumeratorTail(before + [d] + after), parent)
    ensures HashBytes(OtherMemberTail(before + [c] + after), parent)
            != HashBytes(OtherMemberTail(before + [d] + after), parent)
    ensures HashBytes(DataMemberTail(before + [c] + after, typeId), parent)
            != HashBytes(DataMemberTail(before + [d] + after, typeId), parent)
  {
    var type_ := Text(":type:") + IntegerBytes(typeId);
    assert forall x: Byte ::
      Text("member:") + (before + [x] + after) + type_ == Text("member:") + (before + [x] + (after + type_));
    SiblingNames(Text("member:"), parent, before, c, d, after + type_);
    SiblingNames(Text("enumerator:"), parent, before, c, d, after);
    SiblingNames(Text("member:"), parent, before, c, d, after);
  }

  lemma SiblingNames(tag: seq<Byte>, parent: Hash, before: seq<Byte>, c: Byte, d: Byte, after: seq<Byte>)
    requires c != d
    ensures HashBytes(tag + (before + [c] + after), parent) != HashBytes(tag + (before + [d] + after), parent)
  {
    assert tag + (before + [c] + after) == (tag + before) + [c] + after;
    assert tag + (before + [d] + after) == (tag + before) + [d] + after;
    if HashBytes(tag + (before + [c] + after), parent) == HashBytes(tag + (before + [d] + after), parent) {
      OneByteApart(tag + before, c, d, after, parent);
    }
  }

  /** Different functions give all their parameters different ids, different
      classes all their bases and members, different enums all their enumerators,
      provided the children are otherwise alike. */
  lemma ChildIdsFollowParents(parent: Hash, other: Hash, index: Hash, typeId: Hash, v: bool, a: nat, name: seq<Byte>)
    requires parent != other && a < 3
    ensures HashBytes(ParameterTail(index, typeId), parent) != HashBytes(ParameterTail(index, typeId), other)
    ensures HashBytes(BaseTail(typeId, v, a), parent) != HashBytes(BaseTail(typeId, v, a), other)
    ensures HashBytes(EnumeratorTail(name), parent) != HashBytes(EnumeratorTail(name), other)
    ensures HashBytes(DataMemberTail(name, typeId), parent) != HashBytes(DataMemberTail(name, typeId), other)
    ensures HashBytes(OtherMemberTail(name), parent) != HashBytes(OtherMemberTail(name), other)
  {
    ParentsSeparateChildren(ParameterTail(index, typeId), parent, other);
    ParentsSeparateChildren(BaseTail(typeId, v, a), parent, other);
    ParentsSeparateChildren(EnumeratorTail(name), parent, other);
    ParentsSeparateChildren(DataMemberTail(name, typeId), parent, other);
    ParentsSeparateChildren(OtherMemberTail(name), parent, other);
  }

  // ----- Types enter the ids -----

  function Pow256(n: nat): (r: nat)
    ensures r > 0
  {
    if n == 0 then 1 else 256 * Pow256(n - 1)
  }

  /** Two ids that differ in byte k, counted from the least significant, and nowhere else. */
  ghost predicate DifferAt(t: nat, u: nat, k: nat) {
    t != u && t % Pow256(k) == u % Pow256(k) && t / Pow256(k + 1) == u / Pow256(k + 1)
  }

  lemma DivTwice(t: nat, m: nat)
    requires m > 0
    ensures t / (256 * m) == (t / 256) / m
    ensures t % (256 * m) == t % 256 + 256 * ((t / 256) % m)
  {
    var q := t / 256;
    assert q == m * (q / m) + q % m;
    assert t == 256 * (m * (q / m)) + 256 * (q % m) + t % 256;
    assert 256 * (m * (q / m)) == (256 * m) * (q / m);
    QuotientIs(t, 256 * m, q / m, t % 256 + 256 * (q % m));
  }

  lemma AtLeast(d: nat, k: int)
    requires k >= 1
    ensures d * k >= d
  {
    assert d * k == d + d * (k - 1);
  }

  lemma QuotientIs(t: nat, d: nat, q: nat, r: nat)
    requires t == d * q + r && r < d
    ensures t / d == q && t % d == r
  {
    var k := t / d;
    assert t == d * k + t % d;
    assert d * (k - q) == r - t % d;
    assert d * (q - k) == t % d - r;
    if k > q {
      AtLeast(d, k - q);
    } else if k < q {
      AtLeast(d, q - k);
    }
  }

  /** Then their bytes are the same but for that one. */
  lemma {:induction false} BytesDiffer(t: nat, u: nat, k: nat, size: nat)
    requires k < size && DifferAt(t, u, k)
    ensures var a, b := LittleEndian(t, size), LittleEndian(u, size);
            a[k] != b[k] && a[..k] == b[..k] && a[k + 1..] == b[k + 1..]
    decreases k
  {
    if k == 0 {
      assert Pow256(0) == 1 && Pow256(1) == 256;
      assert t == 256 * (t / 256) + t % 256 && u == 256 * (u / 256) + u % 256;
      assert LittleEndian(t, size)[1..] == LittleEndian(t / 256, size - 1);
    } else {
      DivTwice(t, Pow256(k - 1));
      DivTwice(u, Pow256(k - 1));
      DivTwice(t, Pow256(k));
      DivTwice(u, Pow256(k));
      assert t == 256 * (t / 256) + t % 256 && u == 256 * (u / 256) + u % 256;
      BytesDiffer(t / 256, u / 256, k - 1, size - 1);
      var a, b := LittleEndian(t / 256, size - 1), LittleEndian(u / 256, size - 1);
      assert LittleEndian(t, size) == [t % 256] + a && LittleEndian(u, size) == [u % 256] + b;
      assert LittleEndian(t, size)[..k] == [t % 256] + a[..k - 1];
      assert LittleEndian(u, size)[..k] == [u % 256] + b[..k - 1];
    }
  }

  lemma Around(head: seq<Byte>, a: seq<Byte>, k: nat, after: seq<Byte>)
    requires k < |a|
    ensures head + a + after == (head + a[..k]) + [a[k]] + (a[k + 1..] + after)
  {
  }

  lemma IntegersDiffer(head: seq<Byte>, t: Hash, u: Hash, k: nat, after: seq<Byte>, h: Hash)
    requires k < 8 && DifferAt(t, u, k)
    ensures HashBytes(head + IntegerBytes(t) + after, h) != HashBytes(head + IntegerBytes(u) + after, h)
  {
    BytesDiffer(t, u, k, 8);
    var a, b := IntegerBytes(t), IntegerBytes(u);
    Around(head, a, k, after);
    Around(head, b, k, after);
    if HashBytes(head + a + after, h) == HashBytes(head + b + after, h) {
      OneByteApart(head + a[..k], a[k], b[k], a[k + 1..] + after, h);
    }
  }

  /** Types whose ids differ in one byte separate bases of one class, parameters of one
      function at one position, and data members of one name. */
  lemma TypesSeparateChildren(parent: Hash, t: Hash, u: Hash, k: nat, index: Hash, v: bool, access: nat,
                              name: seq<Byte>)
    requires k < 8 && DifferAt(t, u, k) && access < 3
    ensures HashBytes(BaseTail(t, v, access), parent) != HashBytes(BaseTail(u, v, access), parent)
    ensures HashBytes(ParameterTail(index, t), parent) != HashBytes(ParameterTail(index, u), parent)
    ensures HashBytes(DataMemberTail(name, t), parent) != HashBytes(DataMemberTail(name, u), parent)
  {
    BaseTypesDiffer(parent, t, u, k, v, access);
    LastDiffers(Text("parameter:") + IntegerBytes(index), t, u, k, parent);
    LastDiffers(Text("member:") + name, t, u, k, parent);
  }

  lemma BaseTypesDiffer(parent: Hash, t: Hash, u: Hash, k: nat, v: bool, access: nat)
    requires k < 8 && DifferAt(t, u, k) && access < 3
    ensures HashBytes(BaseTail(t, v, access), parent) != HashBytes(BaseTail(u, v, access), parent)
  {
    var flag: Hash := if v then 1 else 0;
    var flags := IntegerBytes(flag) + IntegerBytes(access);
    IntegersDiffer(Text("base:"), t, u, k, flags, parent);
    JoinLast(Text("base:") + IntegerBytes(t), IntegerBytes(flag), IntegerBytes(access));
    JoinLast(Text("base:") + IntegerBytes(u), IntegerBytes(flag), IntegerBytes(access));
  }

  lemma LastDiffers(head: seq<Byte>, t: Hash, u: Hash, k: nat, parent: Hash)
    requires k < 8 && DifferAt(t, u, k)
    ensures HashBytes(head + (Text(":type:") + IntegerBytes(t)), parent)
            != HashBytes(head + (Text(":type:") + IntegerBytes(u)), parent)
  {
    var front := head + Text(":type:");
    IntegersDiffer(front, t, u, k, [], parent);
    JoinLast(head, Text(":type:"), IntegerBytes(t));
    JoinLast(head, Text(":type:"), IntegerBytes(u));
    assert front + IntegerBytes(t) + [] == front + IntegerBytes(t);
    assert front + IntegerBytes(u) + [] == front + IntegerBytes(u);
  }

  lemma JoinLast(a: seq<Byte>, b: seq<Byte>, c: seq<Byte>)
    ensures a + (b + c) == a + b + c
  {
  }

  // ----- What is hashed can be read back -----

  lemma {:induction false} ReadBack(v: nat, size: nat)
    requires v < Pow256(size)
    ensures Unsigned(LittleEndian(v, size)) == v
    decreases size
  {
    if size > 0 {
      assert v / 256 < Pow256(size - 1);
      ReadBack(v / 256, size - 1);
      assert LittleEndian(v, size)[1..] == LittleEndian(v / 256, size - 1);
    }
  }

  lemma HashReads(v: Hash)
    ensures Unsigned(IntegerBytes(v)) == v
  {
    assert Pow256(2) == 0x1_0000;
    assert Pow256(4) == 0x1_0000_0000;
    assert Pow256(6) == 0x1_0000_0000_0000;
    assert Pow256(8) == WORD;
    ReadBack(v, 8);
  }

  lemma FourParts(a: seq<Byte>, b: seq<Byte>, c: seq<Byte>, d: seq<Byte>, whole: seq<Byte>)
    requires whole == a + b + c + d
    ensures whole[..|a|] == a && whole[|a|..|a| + |b|] == b && whole[|a| + |b|..|a| + |b| + |c|] == c
    ensures whole[|a| + |b| + |c|..] == d
  {
  }

  /** The four fields of a base stand at fixed places after its class: tag, type id,
      virtual flag, access; so different bases never feed the hash the same bytes. */
  lemma BaseFields(typeId: Hash, isVirtual: bool, access: nat)
    requires access < 3
    ensures var t := BaseTail(typeId, isVirtual, access);
            && |t| == 29 && t[..5] == Text("base:") && Unsigned(t[5..13]) == typeId
            && Unsigned(t[13..21]) == (if isVirtual then 1 else 0) && Unsigned(t[21..]) == access
  {
    var t, flag: Hash := BaseTail(typeId, isVirtual, access), if isVirtual then 1 else 0;
    HashReads(typeId);
    HashReads(flag);
    HashReads(access);
    FourParts(Text("base:"), IntegerBytes(typeId), IntegerBytes(flag), IntegerBytes(access), t);
  }

  /** So do position and type id of a parameter after its function. */
  lemma ParameterFields(index: Hash, typeId: Hash)
    ensures var t := ParameterTail(index, typeId);
            && |t| == 32 && t[..10] == Text("parameter:") && Unsigned(t[10..18]) == index
            && t[18..24] == Text(":type:") && Unsigned(t[24..]) == typeId
  {
    var t := ParameterTail(index, typeId);
    HashReads(index);
    HashReads(typeId);
    assert t[10..18] == IntegerBytes(index) && t[24..] == IntegerBytes(typeId);
  }

  /** The name of a data member stands between a tag and its type id, which ends the
      bytes. */
  lemma DataMemberFields(name: seq<Byte>, typeId: Hash)
    ensures var t := DataMemberTail(name, typeId);
            && |t| == |name| + 21 && t[..7] == Text("member:") && t[7..|t| - 14] == name
            && t[|t| - 14..|t| - 8] == Text(":type:") && Unsigned(t[|t| - 8..]) == typeId
  {
    var t := DataMemberTail(name, typeId);
    HashReads(typeId);
    assert t[|t| - 8..] == IntegerBytes(typeId);
  }

  /** The offset basis, which hash_string and hash_integer start from. */
  const OFFSET: Hash := 0xcbf29ce484222325

  lemma {:induction false} XorZero(a: nat)
    ensures Xor(a, 0) == a
    decreases a
  {
    if a > 0 {
      XorZero(a / 2);
    }
  }

  lemma XorNext(a: nat, b: nat, p: nat, q: nat, x: nat)
    requires p < 2 && q < 2 && Xor(a, b) == x
    ensures Xor(2 * a + p, 2 * b + q) == 2 * x + (if p == q then 0 else 1)
  {
    assert (2 * a + p) / 2 == a && (2 * b + q) / 2 == b;
    assert (2 * a + p) % 2 == p && (2 * b + q) % 2 == q;
  }

  lemma XorHigh(a: nat)
    ensures Xor(8 * a + 2, 6) == 8 * a + 4
  {
    XorZero(a);
    XorNext(a, 0, 0, 1, a);
    XorNext(2 * a, 1, 1, 1, 2 * a + 1);
    XorNext(4 * a + 1, 3, 0, 0, 4 * a + 2);
  }

  lemma XorMiddle(a: nat)
    ensures Xor(32 * a + 9, 24) == 32 * a + 17
  {
    XorHigh(a);
    XorNext(8 * a + 2, 6, 0, 0, 8 * a + 4);
    XorNext(16 * a + 4, 12, 1, 0, 16 * a + 8);
  }

  /** Exclusive or with 'a', from the high bits down. */
  lemma XorLetter(a: nat)
    ensures Xor(128 * a + 0x25, 0x61) == 128 * a + 0x44
  {
    XorMiddle(a);
    XorNext(32 * a + 9, 24, 0, 0, 32 * a + 17);
    XorNext(64 * a + 18, 48, 1, 1, 64 * a + 34);
  }

  lemma PrimeVector(h: Hash)
    requires h == 0xcbf29ce484222344
    ensures Times(h, PRIME) == 0xaf63dc4c8601ec8c
  {
    assert h * PRIME == 0xaf63dc4c8601ec8c + 0xcbf29ce5de * WORD;
  }

  lemma XorWithLetter(h: Hash, c: Byte, a: nat)
    requires h == 128 * a + 0x25 && c == 0x61
    ensures XorHash(h, c) == 128 * a + 0x44
  {
    XorLetter(a);
  }

  lemma HashOne(h: Hash, c: Byte)
    ensures HashBytes([c], h) == Times(XorHash(h, c), PRIME)
  {
    assert [c][1..] == [];
    assert HashBytes([c], h) == HashBytes([], Step(h, c));
  }

  lemma SplitOffset(h: Hash) returns (a: nat)
    requires h == OFFSET
    ensures h == 128 * a + 0x25 && 128 * a + 0x44 == 0xcbf29ce484222344
  {
    a := h / 128;
  }

  /** The published test vector of FNV-1a for the text "a". */
  lemma PublishedVector(start: Hash, c: Byte)
    requires start == OFFSET && c == 0x61
    ensures HashBytes([c], start) == 0xaf63dc4c8601ec8c
  {
    var a := SplitOffset(start);
    XorWithLetter(start, c, a);
    HashOne(start, c);
    PrimeVector(XorHash(start, c));
  }
}
