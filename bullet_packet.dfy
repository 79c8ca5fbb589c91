/**
 * The spawn packet of Network/BulletSpawner.cs: the BulletSpawnData record
 * and BulletPacketEncoder.EncodeBulletSpawn, the revision that reserves 15
 * bytes per record in its length field but writes records at an 11-byte
 * stride, leaving the rest of the buffer zero.
 */
module BulletPacket {
  import opened BitConverter
  import opened VectorCodec

  /** BulletPacketType.BulletSpawn, the only packet type. */
  const BulletSpawnType: byte := 1

  /** The record size the 15-byte revision declares per bullet. */
  const BulletSize15: int := 15

  /** The bytes this revision actually writes per bullet. */
  const RecordStride11: int := 11

  /**
   * BulletSpawnData. patternOffset is read only by the 12-byte encoder
   * in CommonUtil.cs; the 15-byte encoder ignores it.
   */
  datatype BulletSpawnData = BulletSpawnData(
    bulletId: u16,
    position: CompressedVector2,
    direction: CompressedVector2,
    patternIndex: byte,
    patternOffset: byte)

  /** The ten bytes shared by both revisions: id, pos.x, pos.y, dir.x, dir.y. */
  function Fields(b: BulletSpawnData): (bs: seq<byte>)
    ensures |bs| == 10
  {
    var id, px, py := GetBytes(b.bulletId), GetBytes(b.position.x), GetBytes(b.position.y);
    var dx, dy := GetBytes(b.direction.x), GetBytes(b.direction.y);
    [id[0], id[1], px[0], px[1], py[0], py[1], dx[0], dx[1], dy[0], dy[1]]
  }

  /** One record as the 15-byte revision writes it. */
  function Record11(b: BulletSpawnData): (bs: seq<byte>)
    ensures |bs| == RecordStride11
  {
    Fields(b) + [b.patternIndex]
  }

  /** The records of a list, in list order, at an 11-byte stride. */
  function Records11(bullets: seq<BulletSpawnData>): (bs: seq<byte>)
    ensures |bs| == RecordStride11 * |bullets|
  {
    if bullets == [] then []
    else Records11(bullets[..|bullets| - 1]) + Record11(bullets[|bullets| - 1])
  }

  /** n zero bytes (a fresh C# array is zero-filled). */
  function Zeros(n: nat): (z: seq<byte>)
    ensures |z| == n && forall i :: 0 <= i < n ==> z[i] == 0
  {
    seq(n, _ => 0)
  }

  /**
   * The packet EncodeBulletSpawn builds for a list that fits: type byte,
   * little-endian payload length 15 * n, the records, then 4 * n zero bytes.
   */
  function Packet15(bullets: seq<BulletSpawnData>): (p: seq<byte>)
    requires BulletSize15 * |bullets| <= 0xFFFF
    ensures |p| == 3 + BulletSize15 * |bullets|
    ensures p[0] == BulletSpawnType
    ensures p[1] as int + 0x100 * p[2] as int == BulletSize15 * |bullets|
  {
    [BulletSpawnType] + GetBytes(BulletSize15 * |bullets|) + Records11(bullets) + Zeros(4 * |bullets|)
  }

  /**
   * BulletPacketEncoder.EncodeBulletSpawn. An oversized list (15 * n above
   * 65535) gives an empty array; otherwise the buffer holds Packet15.
   */
  method EncodeBulletSpawn(bullets: seq<BulletSpawnData>) returns (buffer: array<byte>)
    ensures BulletSize15 * |bullets| > 0xFFFF ==> buffer.Length == 0
    ensures BulletSize15 * |bullets| <= 0xFFFF ==> buffer[..] == Packet15(bullets)
  {
    var payloadSize := |bullets| * BulletSize15;
    var totalSize := 1 + 2 + payloadSize;
    if payloadSize > 0xFFFF {
      buffer := new byte[0];
      return;
    }
    buffer := new byte[totalSize](_ => 0);
    WriteHeader(buffer, payloadSize);
    assert buffer[..3] == [BulletSpawnType] + GetBytes(payloadSize);
    WriteRecords11(bullets, buffer);
  }

  /** The record loop of EncodeBulletSpawn, filling the buffer after the header. */
  method WriteRecords11(bullets: seq<BulletSpawnData>, buffer: array<byte>)
    requires 3 + RecordStride11 * |bullets| <= buffer.Length
    requires buffer[..] == buffer[..3] + Zeros(buffer.Length - 3)
    modifies buffer
    ensures buffer[..] == old(buffer[..3]) + Records11(bullets) + Zeros(buffer.Length - 3 - RecordStride11 * |bullets|)
  {
    var offset := 3;
    ghost var header := buffer[..3];
    var i := 0;
    while i < |bullets|
      invariant 0 <= i <= |bullets|
      invariant offset == 3 + RecordStride11 * i
      invariant buffer[..] == header + Records11(bullets[..i]) + Zeros(buffer.Length - offset)
    {
      AppendRecord11(header, bullets, i, buffer, offset);
      offset := offset + RecordStride11;
      i := i + 1;
    }
    assert bullets[..i] == bullets;
  }

  /** One turn of the record loop: record i written after the first i. */
  method AppendRecord11(ghost header: seq<byte>, bullets: seq<BulletSpawnData>, i: int, buffer: array<byte>, offset: int)
    requires 0 <= i < |bullets| && offset == |header| + RecordStride11 * i
    requires offset + RecordStride11 <= buffer.Length
    requires buffer[..] == header + Records11(bullets[..i]) + Zeros(buffer.Length - offset)
    modifies buffer
    ensures buffer[..] == header + Records11(bullets[..i + 1]) + Zeros(buffer.Length - offset - RecordStride11)
  {
    ghost var prev := buffer[..];
    WriteRecord11(bullets[i], buffer, offset);
    RecordAppended11(header, bullets, i, prev, buffer[..]);
  }

  /** The type byte and the little-endian payload length, written into a zeroed buffer. */
  method WriteHeader(buffer: array<byte>, payloadSize: u16)
    requires 3 <= buffer.Length
    requires buffer[..] == Zeros(buffer.Length)
    modifies buffer
    ensures buffer[..] == [BulletSpawnType] + GetBytes(payloadSize) + Zeros(buffer.Length - 3)
  {
    var offset := 0;
    CopyTo([BulletSpawnType], buffer, offset);
    offset := offset + 1;
    CopyTo(GetBytes(payloadSize), buffer, offset);
  }

  /** One iteration of the encoding loop appends record i to the written prefix. */
  lemma RecordAppended11(header: seq<byte>, bullets: seq<BulletSpawnData>, i: int, prev: seq<byte>, next: seq<byte>)
    requires 0 <= i < |bullets|
    requires |header| + RecordStride11 * (i + 1) <= |prev|
    requires prev == header + Records11(bullets[..i]) + Zeros(|prev| - |header| - RecordStride11 * i)
    requires next == prev[..|header| + RecordStride11 * i] + Record11(bullets[i])
                     + prev[|header| + RecordStride11 * (i + 1)..]
    ensures next == header + Records11(bullets[..i + 1]) + Zeros(|prev| - |header| - RecordStride11 * (i + 1))
  {
    var offset := |header| + RecordStride11 * i;
    assert prev[..offset] == header + Records11(bullets[..i]);
    assert prev[offset + RecordStride11..] == Zeros(|prev| - offset - RecordStride11);
    assert bullets[..i + 1][..i] == bullets[..i];
    assert Records11(bullets[..i + 1]) == Records11(bullets[..i]) + Record11(bullets[i]);
  }

  /** The loop body of EncodeBulletSpawn: one record written at offset. */
  method WriteRecord11(b: BulletSpawnData, buffer: array<byte>, offset: int)
    requires 0 <= offset && offset + RecordStride11 <= buffer.Length
    modifies buffer
    ensures buffer[..] == old(buffer[..offset]) + Record11(b) + old(buffer[offset + RecordStride11..])
  {
    WriteFields(b, buffer, offset);
    CopyTo([b.patternIndex], buffer, offset + 10);
  }

  /** The five 16-bit fields of a record, each copied with GetBytes(..).CopyTo. */
  method WriteFields(b: BulletSpawnData, buffer: array<byte>, offset: int)
    requires 0 <= offset && offset + 10 <= buffer.Length
    modifies buffer
    ensures Spliced(old(buffer[..]), offset, Fields(b), buffer[..])
  {
    ghost var s0 := buffer[..];
    CopyTo(GetBytes(b.bulletId), buffer, offset);
    CopyTo(GetBytes(b.position.x), buffer, offset + 2);
    CopyTo(GetBytes(b.position.y), buffer, offset + 4);
    CopyTo(GetBytes(b.direction.x), buffer, offset + 6);
    CopyTo(GetBytes(b.direction.y), buffer, offset + 8);
  }

  /** after is before with the bytes of src written over it from index on. */
  ghost predicate Spliced(before: seq<byte>, index: int, src: seq<byte>, after: seq<byte>)
  {
    && 0 <= index && index + |src| <= |before| == |after|
    && forall j :: 0 <= j < |after| ==>
         after[j] == if index <= j < index + |src| then src[j - index] else before[j]
  }

  /**
   * Array.CopyTo(dst, index) for a short source: the bytes of src land at
   * dst[index ..] and nothing else in dst changes.
   */
  method CopyTo(src: seq<byte>, dst: array<byte>, index: int)
    requires 0 <= index && index + |src| <= dst.Length
    modifies dst
    ensures Spliced(old(dst[..]), index, src, dst[..])
  {
    var k := 0;
    while k < |src|
      invariant 0 <= k <= |src|
      invariant Spliced(old(dst[..]), index, src[..k], dst[..])
    {
      dst[index + k] := src[k];
      k := k + 1;
    }
  }

  /** Record j of a list lies at bytes 11j .. 11j + 10 of its record bytes. */
  lemma {:induction false} Records11At(bullets: seq<BulletSpawnData>, j: int)
    requires 0 <= j < |bullets|
    ensures Records11(bullets)[RecordStride11 * j .. RecordStride11 * j + RecordStride11] == Record11(bullets[j])
  {
    var n := |bullets|;
    var init := bullets[..n - 1];
    assert Records11(bullets) == Records11(init) + Record11(bullets[n - 1]);
    if j < n - 1 {
      Records11At(init, j);
      assert init[j] == bullets[j];
    }
  }

  /** In the encoded packet, record j starts at byte 3 + 11j. */
  lemma Packet15RecordAt(bullets: seq<BulletSpawnData>, j: int)
    requires BulletSize15 * |bullets| <= 0xFFFF
    requires 0 <= j < |bullets|
    ensures Packet15(bullets)[3 + RecordStride11 * j .. 3 + RecordStride11 * (j + 1)] == Record11(bullets[j])
  {
    var p := Packet15(bullets);
    var head := [BulletSpawnType] + GetBytes(BulletSize15 * |bullets|);
    assert p == head + Records11(bullets) + Zeros(4 * |bullets|);
    Records11At(bullets, j);
    assert p[3 + RecordStride11 * j .. 3 + RecordStride11 * (j + 1)]
        == Records11(bullets)[RecordStride11 * j .. RecordStride11 * j + RecordStride11];
  }

  /** The 4 * n bytes after the last record stay zero. */
  lemma Packet15Tail(bullets: seq<BulletSpawnData>, k: int)
    requires BulletSize15 * |bullets| <= 0xFFFF
    requires 3 + RecordStride11 * |bullets| <= k < 3 + BulletSize15 * |bullets|
    ensures Packet15(bullets)[k] == 0
  {
    var p := Packet15(bullets);
    var head := [BulletSpawnType] + GetBytes(BulletSize15 * |bullets|);
    assert p == (head + Records11(bullets)) + Zeros(4 * |bullets|);
  }
}
