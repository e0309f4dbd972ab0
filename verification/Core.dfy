/** Identifiers, error codes, the optional value and machine words, shared by every
    module. */
module Core {
  /** A 64-bit entity id.  Ids are only compared and stored here; the module that
      computes them (InfoHash) models the width. */
  type Info = nat

  const INVALID_INFO: Info := 0

  /** The error codes of include/cmm/error.hpp in declaration order.  The last
      constructor is not one of them: it stands for std::bad_variant_access
      leaving a registration when an enum id is already held by another kind of
      entity. */
  datatype Error =
    | Success
    | TypeMismatch
    | NullValue
    | EntityNotFound
    | MethodNotFound
    | InvalidArgumentCount
    | InvalidArgumentType
    | NotInvocable
    | ThunkNotInitialized
    | ConstViolation
    | StaticMismatch
    | BitFieldUnsupported
    | EntityIdCollision
    | RegistryFrozen
    | NonCopyableValue
    | UncaughtBadVariantAccess

  datatype Option<+T> = None | Some(value: T)

  predicate Distinct<T(==)>(s: seq<T>) {
    forall i, j | 0 <= i < j < |s| :: s[i] != s[j]
  }

  // ----- Machine words -----

  /** The values of std::uint64_t are the numbers below this one. */
  const WORD: nat := 0x1_0000_0000_0000_0000

  type Byte = b: nat | b < 256

  /** The size low bytes in two's complement, least significant first. */
  function LittleEndian(v: int, size: nat): (s: seq<Byte>)
    ensures |s| == size
    decreases size
  {
    if size == 0 then [] else [v % 256] + LittleEndian(v / 256, size - 1)
  }

  /** The unsigned number with these bytes. */
  function Unsigned(data: seq<Byte>): nat {
    if data == [] then 0 else data[0] + 256 * Unsigned(data[1..])
  }
}
