/** Machine types, small datatypes and a search shared by the whole model. */
module NetTypes {

  type byte = x: int | 0 <= x < 0x100

  type uint16 = x: int | 0 <= x < 0x1_0000

  type uint32 = x: int | 0 <= x < 0x1_0000_0000

  datatype Option<+T> = None | Some(value: T)

  datatype Result<+T> = Ok(value: T) | Err(reason: Failure)

  /** Why an operation of the original stopped before doing its work. */
  datatype Failure = SizeMismatch | KeyMissing | Underflow | Overflow | OutOfBounds | Dropped | UnknownFrame

  /** The place of the first occurrence, or the length. */
  function FirstAt<T(==)>(s: seq<T>, x: T): (r: nat)
    ensures r <= |s| && (r < |s| ==> s[r] == x) && forall i :: 0 <= i < r ==> s[i] != x
  {
    if s == [] || s[0] == x then 0 else 1 + FirstAt(s[1..], x)
  }
}
