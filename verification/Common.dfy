/** Small datatypes and integer types shared by every module. */
module Common {

  const TWO_TO_THE_32: int := 0x1_0000_0000

  type u32 = x: int | 0 <= x < TWO_TO_THE_32

  type byte = x: int | 0 <= x < 256

  datatype Option<+T> = None | Some(value: T)

  datatype Result<+T, +E> = Ok(value: T) | Err(error: E)

  function MinNat(a: nat, b: nat): nat { if a <= b then a else b }

  function MinReal(a: real, b: real): real { if a <= b then a else b }

  function MaxReal(a: real, b: real): real { if a >= b then a else b }

  lemma TimesBack(a: real, w: real)
    requires w != 0.0
    ensures a / w * w == a
  {
  }
}
