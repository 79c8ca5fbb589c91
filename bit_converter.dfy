/**
 * The two .NET BitConverter operations the packet code uses, on a
 * little-endian host (every Unity target): GetBytes(ushort) and
 * ToUInt16(byte[], int).
 */
module BitConverter {
  import opened Wrappers

  type byte = x: int | 0 <= x < 0x100
  type u16 = x: int | 0 <= x < 0x1_0000

  /** BitConverter.GetBytes(ushort): low byte first. */
  function GetBytes(v: u16): (bs: seq<byte>)
    ensures |bs| == 2
    ensures bs[0] as int + 0x100 * bs[1] as int == v
  {
    [v % 0x100, v / 0x100]
  }

  /** The 16-bit value stored little-endian at p[at], p[at + 1]. */
  function U16At(p: seq<byte>, at: int): (v: u16)
    requires 0 <= at && at + 2 <= |p|
  {
    p[at] as int + 0x100 * p[at + 1] as int
  }

  /**
   * BitConverter.ToUInt16(value, startIndex): None where .NET throws
   * (startIndex negative, or fewer than two bytes left).
   */
  function ToUInt16(value: seq<byte>, startIndex: int): (r: Option<u16>)
    ensures r.Some? <==> 0 <= startIndex && startIndex + 2 <= |value|
    ensures r.Some? ==> r.value == value[startIndex] as int + 0x100 * value[startIndex + 1] as int
  {
    if 0 <= startIndex && startIndex + 2 <= |value| then Some(U16At(value, startIndex)) else None
  }

  /** Reading back the two bytes GetBytes wrote gives the value again. */
  lemma ToUInt16GetBytes(v: u16, before: seq<byte>, after: seq<byte>)
    ensures ToUInt16(before + GetBytes(v) + after, |before|) == Some(v)
  {
    var p := before + GetBytes(v) + after;
    assert p[|before|] == GetBytes(v)[0] && p[|before| + 1] == GetBytes(v)[1];
  }
}
