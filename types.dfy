/** Machine integers and error results shared by the lobby model. */
module Types {

  /** C# `ulong`: Steam ids (`CSteamID.m_SteamID`) and lobby handles. */
  newtype u64 = x: int | 0 <= x < 0x1_0000_0000_0000_0000

  /** C# `int`: slot counters and member counts. */
  newtype i32 = x: int | -0x8000_0000 <= x < 0x8000_0000

  /** C# `byte`: song difficulty and packet payload bytes. */
  newtype byte = x: int | 0 <= x < 0x100

  const MinI32: int := -0x8000_0000
  const MaxI32: int := 0x7FFF_FFFF

  /** C# unchecked `a + b` on `int`: the exact sum, wrapped modulo 2^32 into
      the signed range. */
  function AddWrap(a: i32, b: i32): (r: i32)
    ensures MinI32 <= a as int + b as int <= MaxI32 ==> r as int == a as int + b as int
    ensures a as int + b as int > MaxI32 ==> r as int == a as int + b as int - 0x1_0000_0000
    ensures a as int + b as int < MinI32 ==> r as int == a as int + b as int + 0x1_0000_0000
    ensures (r as int - (a as int + b as int)) % 0x1_0000_0000 == 0
  {
    var s := a as int + b as int;
    if s > MaxI32 then (s - 0x1_0000_0000) as i32
    else if s < MinI32 then (s + 0x1_0000_0000) as i32
    else s as i32
  }

  /** A wrapped increment is undone by a wrapped decrement, even across the
      overflow from `int.MaxValue` to `int.MinValue`: a player connecting
      and then disconnecting leaves `UsedSlots` as it was. */
  lemma AddWrapInverse(x: i32)
    ensures AddWrap(AddWrap(x, 1), -1) == x
  {
  }

  /** The exception a .NET `Dictionary.Add` raises on a key that is present. */
  datatype Error = DuplicateKey

  datatype Result<+T> = Ok(value: T) | Err(error: Error)

  datatype Option<+T> = None | Some(value: T)
}
