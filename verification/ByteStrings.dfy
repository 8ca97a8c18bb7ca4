/** File contents. */
module ByteStrings {
  type Byte = b: nat | b < 0x100

  type Bytes = seq<Byte>

  const LF: Byte := 0x0A
}
