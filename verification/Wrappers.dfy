/** Value types shared by every component of the model. */
module Wrappers {
  datatype Option<+T> = None | Some(value: T)

  /** The source's fixed-width unsigned integers. */
  type u8 = x: int | 0 <= x < 0x100
  type u16 = x: int | 0 <= x < 0x1_0000
  type u32 = x: int | 0 <= x < 0x1_0000_0000
}
