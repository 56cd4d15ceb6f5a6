/** Shared by the other modules. */
module Common {
  const UINT_LIMIT: nat := 0x1_0000_0000     // uint arithmetic is modulo this

  datatype Option<+T> = None | Some(value: T)

  function Min(x: nat, y: nat): nat { if x < y then x else y }

  function Max(x: nat, y: nat): nat { if x < y then y else x }
}
