/**
 * The System.Collections.Generic.Queue<T> the code drains: a FIFO
 * sequence updated in place.
 */
module Collections {

  class Queue<T> {
    var items: seq<T>

    constructor(initial: seq<T>)
      ensures items == initial
    {
      items := initial;
    }

    function Count(): nat
      reads this
    {
      |items|
    }

    /** Queue.Dequeue on a non-empty queue: removes and returns the front. */
    method Dequeue() returns (x: T)
      requires items != []
      modifies this
      ensures x == old(items)[0] && items == old(items)[1..]
    {
      x := items[0];
      items := items[1..];
    }
  }
}

/**
 * CommonUtil.cs: DequeueSafe, DecodeVariableBits and the 12-byte revision of
 * EncodeBulletSpawn, which writes patternOffset after patternIndex so that
 * every byte of the buffer is written.
 */
module CommonUtil {
  import opened Wrappers
  import opened BitConverter
  import opened VectorCodec
  import opened BulletPacket
  import opened Collections

  /** What DequeueSafe hands back: null, a list, or the exception of new List<T>(negative). */
  datatype DequeueResult<T> = Null | Items(items: seq<T>) | CapacityOutOfRange

  /** Mathf.Min on ints: the smaller argument. */
  function Min(a: int, b: int): (r: int)
    ensures r <= a && r <= b
    ensures r == a || r == b
  {
    if a < b then a else b
  }

  /**
   * DequeueSafe(queue, count): null for a null or empty queue; otherwise the
   * first min(count, Count) items, removed from the queue in FIFO order.
   * A negative count on a non-empty queue makes the List constructor throw
   * before anything is dequeued.
   */
  method DequeueSafe<T>(queue: Queue?<T>, count0: int) returns (r: DequeueResult<T>)
    modifies queue
    ensures queue == null || old(queue.items) == [] ==> r == Null
    ensures queue != null ==> (old(queue.items) == [] || count0 < 0 ==> queue.items == old(queue.items))
    ensures queue != null && old(queue.items) != [] && count0 < 0 ==> r == CapacityOutOfRange
    ensures queue != null && old(queue.items) != [] && count0 >= 0 ==>
      var n := Min(count0, |old(queue.items)|);
      && r == Items(old(queue.items)[..n])
      && queue.items == old(queue.items)[n..]
  {
    if queue == null || queue.Count() == 0 {
      return Null;
    }
    var count := Min(count0, queue.Count());
    if count < 0 {
      return CapacityOutOfRange;
    }
    ghost var n := count;
    var result := [];
    while count > 0
      invariant 0 <= count <= n
      invariant result == old(queue.items)[..n - count]
      invariant queue.items == old(queue.items)[n - count..]
    {
      count := count - 1;
      var x := queue.Dequeue();
      result := result + [x];
    }
    return Items(result);
  }

  function Pow2(n: nat): (p: nat)
    ensures p >= 1
  {
    if n == 0 then 1 else 2 * Pow2(n - 1)
  }

  /** value >> n on a non-negative value. */
  function ShiftRight(value: nat, n: nat): nat
  {
    if n == 0 then value else ShiftRight(value / 2, n - 1)
  }

  /** ((value >> i) & 1) == 1: bit i of value, counting from the least significant. */
  predicate Bit(value: nat, i: nat)
  {
    ShiftRight(value, i) % 2 == 1
  }

  /**
   * DecodeVariableBits(value, totalBits): throws (None) unless totalBits is
   * in [1, 8]; otherwise exactly totalBits flags, entry i being bit i.
   */
  method DecodeVariableBits(value: byte, totalBits: int) returns (r: Option<seq<bool>>)
    ensures r.None? <==> totalBits < 1 || totalBits > 8
    ensures r.Some? ==> |r.value| == totalBits
    ensures r.Some? ==> forall i :: 0 <= i < totalBits ==> r.value[i] == Bit(value, i)
  {
    if totalBits < 1 || totalBits > 8 {
      return None;
    }
    var result := [];
    for i := 0 to totalBits
      invariant |result| == i
      invariant forall j :: 0 <= j < i ==> result[j] == Bit(value, j)
    {
      result := result + [ShiftRight(value, i) % 2 == 1];
    }
    return Some(result);
  }

  /** The value of a list of flags read LSB first: the inverse of bit decoding. */
  function FlagsValue(flags: seq<bool>): nat
  {
    if flags == [] then 0 else (if flags[0] then 1 else 0) + 2 * FlagsValue(flags[1..])
  }

  /** The first t bits of value as flags. */
  function Flags(value: nat, t: nat): (flags: seq<bool>)
    ensures |flags| == t && forall i :: 0 <= i < t ==> flags[i] == Bit(value, i)
  {
    seq(t, i requires 0 <= i < t => Bit(value, i))
  }

  /** The low t flags and the bits above them recompose the value. */
  lemma {:induction false} FlagsRecompose(value: nat, t: nat)
    ensures FlagsValue(Flags(value, t)) + Pow2(t) * ShiftRight(value, t) == value
  {
    if t > 0 {
      FlagsRecompose(value / 2, t - 1);
      var f := Flags(value, t);
      assert f[1..] == Flags(value / 2, t - 1) by {
        forall i | 0 <= i < t - 1
          ensures f[1..][i] == Flags(value / 2, t - 1)[i]
        {
          assert ShiftRight(value, i + 1) == ShiftRight(value / 2, i);
        }
      }
      assert f[0] == (value % 2 == 1);
      assert ShiftRight(value, t) == ShiftRight(value / 2, t - 1);
      RecomposeStep(value, FlagsValue(f[1..]), Pow2(t - 1), ShiftRight(value / 2, t - 1));
    }
  }

  /** The arithmetic of one step: the low bit, then twice the value of the rest. */
  lemma RecomposeStep(value: nat, rest: nat, q: nat, s: nat)
    requires rest + q * s == value / 2
    ensures value % 2 + 2 * rest + (2 * q) * s == value
  {
    assert (2 * q) * s == 2 * (q * s);
  }

  /** Decoding all eight bits of a byte and reading them back gives the byte. */
  lemma DecodeBitsRoundTrip(value: byte)
    ensures FlagsValue(Flags(value, 8)) == value
  {
    FlagsRecompose(value, 8);
    assert Pow2(8) == 256;
  }

  /** The record size of this revision. */
  const BulletSize12: int := 12

  /** One record: the ten shared bytes, patternIndex, patternOffset. */
  function Record12(b: BulletSpawnData): (bs: seq<byte>)
    ensures |bs| == BulletSize12
  {
    Fields(b) + [b.patternIndex, b.patternOffset]
  }

  /** The records of a list, in list order, back to back. */
  function Records12(bullets: seq<BulletSpawnData>): (bs: seq<byte>)
    ensures |bs| == BulletSize12 * |bullets|
  {
    if bullets == [] then []
    else Records12(bullets[..|bullets| - 1]) + Record12(bullets[|bullets| - 1])
  }

  /** The packet for a list that fits: type byte, length 12 * n, the records. */
  function Packet12(bullets: seq<BulletSpawnData>): (p: seq<byte>)
    requires BulletSize12 * |bullets| <= 0xFFFF
    ensures |p| == 3 + BulletSize12 * |bullets|
    ensures p[0] == BulletSpawnType
    ensures p[1] as int + 0x100 * p[2] as int == BulletSize12 * |bullets|
  {
    [BulletSpawnType] + GetBytes(BulletSize12 * |bullets|) + Records12(bullets)
  }

  /**
   * CommonUtil.EncodeBulletSpawn: an empty array when 12 * n exceeds 65535,
   * otherwise Packet12.
   */
  method EncodeBulletSpawn(bullets: seq<BulletSpawnData>) returns (buffer: array<byte>)
    ensures BulletSize12 * |bullets| > 0xFFFF ==> buffer.Length == 0
    ensures BulletSize12 * |bullets| <= 0xFFFF ==> buffer[..] == Packet12(bullets)
  {
    var payloadSize := |bullets| * BulletSize12;
    var totalSize := 1 + 2 + payloadSize;
    if payloadSize > 0xFFFF {
      buffer := new byte[0];
      return;
    }
    buffer := new byte[totalSize](_ => 0);
    WriteHeader(buffer, payloadSize);
    assert buffer[..3] == [BulletSpawnType] + GetBytes(payloadSize);
    WriteRecords12(bullets, buffer);
  }

  /** The record loop of EncodeBulletSpawn, filling the buffer after the header. */
  method WriteRecords12(bullets: seq<BulletSpawnData>, buffer: array<byte>)
    requires 3 + BulletSize12 * |bullets| <= buffer.Length
    requires buffer[..] == buffer[..3] + Zeros(buffer.Length - 3)
    modifies buffer
    ensures buffer[..] == old(buffer[..3]) + Records12(bullets) + Zeros(buffer.Length - 3 - BulletSize12 * |bullets|)
  {
    var offset := 3;
    ghost var header := buffer[..3];
    var i := 0;
    while i < |bullets|
      invariant 0 <= i <= |bullets|
      invariant offset == 3 + BulletSize12 * i
      invariant buffer[..] == header + Records12(bullets[..i]) + Zeros(buffer.Length - offset)
    {
      AppendRecord12(header, bullets, i, buffer, offset);
      offset := offset + BulletSize12;
      i := i + 1;
    }
    assert bullets[..i] == bullets;
  }

  /** One turn of the record loop: record i written after the first i. */
  method AppendRecord12(ghost header: seq<byte>, bullets: seq<BulletSpawnData>, i: int, buffer: array<byte>, offset: int)
    requires 0 <= i < |bullets| && offset == |header| + BulletSize12 * i
    requires offset + BulletSize12 <= buffer.Length
    requires buffer[..] == header + Records12(bullets[..i]) + Zeros(buffer.Length - offset)
    modifies buffer
    ensures buffer[..] == header + Records12(bullets[..i + 1]) + Zeros(buffer.Length - offset - BulletSize12)
  {
    ghost var prev := buffer[..];
    WriteRecord12(bullets[i], buffer, offset);
    RecordAppended12(header, bullets, i, prev, buffer[..]);
  }

  /** One iteration of the encoding loop appends record i to the written prefix. */
  lemma RecordAppended12(header: seq<byte>, bullets: seq<BulletSpawnData>, i: int, prev: seq<byte>, next: seq<byte>)
    requires 0 <= i < |bullets|
    requires |header| + BulletSize12 * (i + 1) <= |prev|
    requires prev == header + Records12(bullets[..i]) + Zeros(|prev| - |header| - BulletSize12 * i)
    requires next == prev[..|header| + BulletSize12 * i] + Record12(bullets[i])
                     + prev[|header| + BulletSize12 * (i + 1)..]
    ensures next == header + Records12(bullets[..i + 1]) + Zeros(|prev| - |header| - BulletSize12 * (i + 1))
  {
    var offset := |header| + BulletSize12 * i;
    assert prev[..offset] == header + Records12(bullets[..i]);
    assert prev[offset + BulletSize12..] == Zeros(|prev| - offset - BulletSize12);
    assert bullets[..i + 1][..i] == bullets[..i];
    assert Records12(bullets[..i + 1]) == Records12(bullets[..i]) + Record12(bullets[i]);
  }

  /** The loop body of EncodeBulletSpawn: one 12-byte record written at offset. */
  method WriteRecord12(b: BulletSpawnData, buffer: array<byte>, offset: int)
    requires 0 <= offset && offset + BulletSize12 <= buffer.Length
    modifies buffer
    ensures buffer[..] == old(buffer[..offset]) + Record12(b) + old(buffer[offset + BulletSize12..])
  {
    WriteFields(b, buffer, offset);
    CopyTo([b.patternIndex], buffer, offset + 10);
    CopyTo([b.patternOffset], buffer, offset + 11);
  }

  /** Reading a 12-byte record back at `at`; None past the end of p. */
  function ReadRecord12(p: seq<byte>, at: int): (r: Option<BulletSpawnData>)
    ensures r.Some? <==> 0 <= at && at + BulletSize12 <= |p|
  {
    if 0 <= at && at + BulletSize12 <= |p| then
      Some(BulletSpawnData(
        U16At(p, at),
        CompressedVector2(U16At(p, at + 2), U16At(p, at + 4)),
        CompressedVector2(U16At(p, at + 6), U16At(p, at + 8)),
        p[at + 10],
        p[at + 11]))
    else None
  }

  /** Record j of a list lies at bytes 12j .. 12j + 11 of its record bytes. */
  lemma {:induction false} Records12At(bullets: seq<BulletSpawnData>, j: int)
    requires 0 <= j < |bullets|
    ensures Records12(bullets)[BulletSize12 * j .. BulletSize12 * j + BulletSize12] == Record12(bullets[j])
  {
    var n := |bullets|;
    var init := bullets[..n - 1];
    assert Records12(bullets) == Records12(init) + Record12(bullets[n - 1]);
    if j < n - 1 {
      Records12At(init, j);
      assert init[j] == bullets[j];
    }
  }

  /**
   * Record j of the packet occupies bytes 3 + 12j .. 3 + 12j + 11 and reads
   * back as bullets[j], patternOffset included.
   */
  lemma Packet12RecordRoundTrip(bullets: seq<BulletSpawnData>, j: int)
    requires BulletSize12 * |bullets| <= 0xFFFF
    requires 0 <= j < |bullets|
    ensures ReadRecord12(Packet12(bullets), 3 + BulletSize12 * j) == Some(bullets[j])
  {
    var p := Packet12(bullets);
    var at := 3 + BulletSize12 * j;
    var head := [BulletSpawnType] + GetBytes(BulletSize12 * |bullets|);
    assert p == head + Records12(bullets);
    Records12At(bullets, j);
    assert p[at..at + BulletSize12] == Record12(bullets[j]);
    ReadRecord12At(p, at, bullets[j]);
  }

  /** Twelve bytes at `at` that are the record of b read back as b. */
  lemma ReadRecord12At(p: seq<byte>, at: int, b: BulletSpawnData)
    requires 0 <= at && at + BulletSize12 <= |p|
    requires p[at..at + BulletSize12] == Record12(b)
    ensures ReadRecord12(p, at) == Some(b)
  {
    var rec := Record12(b);
    assert rec == GetBytes(b.bulletId) + GetBytes(b.position.x) + GetBytes(b.position.y)
      + GetBytes(b.direction.x) + GetBytes(b.direction.y) + [b.patternIndex, b.patternOffset];
    assert p[at] == rec[0] && p[at + 1] == rec[1];
    assert p[at + 2] == rec[2] && p[at + 3] == rec[3];
    assert p[at + 4] == rec[4] && p[at + 5] == rec[5];
    assert p[at + 6] == rec[6] && p[at + 7] == rec[7];
    assert p[at + 8] == rec[8] && p[at + 9] == rec[9];
    assert p[at + 10] == rec[10] && p[at + 11] == rec[11];
  }

  /**
   * Every byte after the header belongs to exactly one record: byte k of the
   * payload is byte k % 12 of record k / 12.
   */
  lemma Packet12Covered(bullets: seq<BulletSpawnData>, k: int)
    requires BulletSize12 * |bullets| <= 0xFFFF
    requires 3 <= k < |Packet12(bullets)|
    ensures Packet12(bullets)[k] == Record12(bullets[(k - 3) / BulletSize12])[(k - 3) % BulletSize12]
  {
    var p := Packet12(bullets);
    var j := (k - 3) / BulletSize12;
    var head := [BulletSpawnType] + GetBytes(BulletSize12 * |bullets|);
    assert p == head + Records12(bullets);
    Records12At(bullets, j);
    assert p[k] == Records12(bullets)[k - 3];
  }
}
