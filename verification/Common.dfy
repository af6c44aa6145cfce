/** Datatypes shared by the whole model. */
module Common {

  datatype Option<+T> = None | Some(value: T)

  datatype Result<+T> = Success(value: T) | Failure(error: string)

  /** An object name.  A generated name stands for a prefix followed by a UUID: two UUIDs never
      coincide, so the number that identifies the UUID is all that matters about it. */
  datatype Name = Given(text: string) | Generated(base: Name, uid: nat)

  predicate NoDuplicates<T(==)>(s: seq<T>) {
    forall i, j | 0 <= i < j < |s| :: s[i] != s[j]
  }

  const MAX_INT32 := 0x7fff_ffff

  /** Go's conversion to int32: keep the low 32 bits, read them as two's complement. */
  function Int32(x: int): (r: int)
    ensures -MAX_INT32 - 1 <= r <= MAX_INT32
    ensures exists k :: r == x + k * 0x1_0000_0000
    ensures -MAX_INT32 - 1 <= x <= MAX_INT32 ==> r == x
  {
    var low := x % 0x1_0000_0000;
    assert low == x + (-(x / 0x1_0000_0000)) * 0x1_0000_0000;
    assert low - 0x1_0000_0000 == x + (-(x / 0x1_0000_0000) - 1) * 0x1_0000_0000;
    if low <= MAX_INT32 then low else low - 0x1_0000_0000
  }
}
