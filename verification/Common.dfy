/** Machine limits and small types shared by the other modules. */
module Common {
  datatype Option<T> = None | Some(value: T)

  const MAX_INT64: int := 0x7FFF_FFFF_FFFF_FFFF
  const MAX_UINT64: int := 0xFFFF_FFFF_FFFF_FFFF

  function SaturatingAdd(left: int, right: int): int {
    if MAX_UINT64 - left < right then MAX_UINT64 else left + right
  }

  function Abs(x: real): real {
    if x < 0.0 then -x else x
  }
}
