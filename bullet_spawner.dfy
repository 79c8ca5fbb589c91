/**
 * The receiving side and the id counter of BulletSpawner (Network/BulletSpawner.cs):
 * RPC_SpawnBullets reads the type byte and length field and dispatches to
 * DecodeAndSpawnBullets, which reads one 11-byte record per 15 declared bytes
 * and spawns a bullet for each. A spawn is reported as a SpawnCall; a .NET
 * exception while reading ends the parse with threw = true, after the
 * bullets already spawned.
 */
module BulletSpawner {
  import opened Wrappers
  import opened BitConverter
  import opened VectorCodec
  import opened BulletPacket

  /** The arguments of one SpawnBullet(bulletId, position, direction, pattern) call. */
  datatype SpawnCall = SpawnCall(bulletId: u16, position: Vector2, direction: Vector2, pattern: byte)

  /** The SpawnBullet call a record should produce on the receiving side. */
  function CallFor(b: BulletSpawnData): SpawnCall
  {
    SpawnCall(b.bulletId, ToVector2(b.position), ToVector2(b.direction), b.patternIndex)
  }

  /**
   * One iteration of the DecodeAndSpawnBullets loop reading at `at`: five
   * ToUInt16 reads and one byte; None when any read would throw.
   */
  function ReadRecord11(p: seq<byte>, at: int): (r: Option<SpawnCall>)
    ensures r.Some? <==> 0 <= at && at + RecordStride11 <= |p|
  {
    if 0 <= at && at + RecordStride11 <= |p| then
      Some(SpawnCall(
        U16At(p, at),
        ToVector2(CompressedVector2(U16At(p, at + 2), U16At(p, at + 4))),
        ToVector2(CompressedVector2(U16At(p, at + 6), U16At(p, at + 8))),
        p[at + 10]))
    else None
  }

  /** How many whole 11-byte records lie in p from `offset` on. */
  function Available(p: seq<byte>, offset: nat): nat
  {
    if offset <= |p| then (|p| - offset) / RecordStride11 else 0
  }

  /**
   * The outcome DecodeAndSpawnBullets(p, offset, length) has: length / 15
   * records are attempted; they are spawned in order while whole records
   * remain, and the parse throws iff fewer than that remain.
   */
  ghost predicate DecodedFrom(p: seq<byte>, offset: nat, length: nat, calls: seq<SpawnCall>, threw: bool)
  {
    var count := length / BulletSize15;
    && threw == (count > Available(p, offset))
    && |calls| == (if threw then Available(p, offset) else count)
    && forall j :: 0 <= j < |calls| ==> ReadRecord11(p, offset + RecordStride11 * j) == Some(calls[j])
  }

  /** DecodeAndSpawnBullets(payload, offset, length). */
  method DecodeAndSpawnBullets(payload: array<byte>, offset0: nat, length: nat)
    returns (calls: seq<SpawnCall>, threw: bool)
    ensures DecodedFrom(payload[..], offset0, length, calls, threw)
  {
    var sizePer := 7 + 2 + 2 + 2 + 2;
    var count := length / sizePer;
    var offset := offset0;
    calls, threw := [], false;
    var i := 0;
    while i < count
      invariant 0 <= i <= count
      invariant offset == offset0 + RecordStride11 * i
      invariant i <= Available(payload[..], offset0)
      invariant |calls| == i
      invariant forall j :: 0 <= j < i ==> ReadRecord11(payload[..], offset0 + RecordStride11 * j) == Some(calls[j])
    {
      var r := ReadRecord11(payload[..], offset);
      if r.None? {
        threw := true;
        return;
      }
      calls := calls + [r.value];
      offset := offset + RecordStride11;
      i := i + 1;
    }
  }

  /**
   * RPC_SpawnBullets(payload): payload[0] and the length at payload[1..3]
   * are read first (throwing on a payload shorter than 3 bytes); only a
   * BulletSpawn type byte leads to decoding.
   */
  method RpcSpawnBullets(payload: array<byte>) returns (calls: seq<SpawnCall>, threw: bool)
    ensures payload.Length < 3 ==> threw && calls == []
    ensures payload.Length >= 3 && payload[0] != BulletSpawnType ==> !threw && calls == []
    ensures payload.Length >= 3 && payload[0] == BulletSpawnType ==>
      DecodedFrom(payload[..], 3, U16At(payload[..], 1), calls, threw)
  {
    if payload.Length == 0 {
      return [], true;
    }
    var offset := 0;
    var packetType := payload[offset];
    offset := offset + 1;
    var length := ToUInt16(payload[..], offset);
    if length.None? {
      return [], true;
    }
    offset := offset + 2;
    calls, threw := [], false;
    if packetType == BulletSpawnType {
      calls, threw := DecodeAndSpawnBullets(payload, offset, length.value);
    }
  }

  /** The records of an encoded packet are read back as the calls they stand for. */
  lemma ReadBackRecord(bullets: seq<BulletSpawnData>, j: int)
    requires BulletSize15 * |bullets| <= 0xFFFF
    requires 0 <= j < |bullets|
    ensures ReadRecord11(Packet15(bullets), 3 + RecordStride11 * j) == Some(CallFor(bullets[j]))
  {
    var p := Packet15(bullets);
    var at := 3 + RecordStride11 * j;
    var b := bullets[j];
    Packet15RecordAt(bullets, j);
    assert p[at..at + RecordStride11] == Record11(b);
    var rec := Record11(b);
    assert rec == GetBytes(b.bulletId) + GetBytes(b.position.x) + GetBytes(b.position.y)
      + GetBytes(b.direction.x) + GetBytes(b.direction.y) + [b.patternIndex];
    assert p[at] == rec[0] && p[at + 1] == rec[1];
    assert U16At(p, at) == b.bulletId;
    assert p[at + 2] == rec[2] && p[at + 3] == rec[3];
    assert U16At(p, at + 2) == b.position.x;
    assert p[at + 4] == rec[4] && p[at + 5] == rec[5];
    assert U16At(p, at + 4) == b.position.y;
    assert p[at + 6] == rec[6] && p[at + 7] == rec[7];
    assert U16At(p, at + 6) == b.direction.x;
    assert p[at + 8] == rec[8] && p[at + 9] == rec[9];
    assert U16At(p, at + 8) == b.direction.y;
    assert p[at + 10] == rec[10];
  }

  /**
   * Decoding what the 15-byte encoder produced: length / 15 records, equal
   * to the input list in order, and no exception.
   */
  lemma {:induction false} DecodeEncoded(bullets: seq<BulletSpawnData>, calls: seq<SpawnCall>, threw: bool)
    requires BulletSize15 * |bullets| <= 0xFFFF
    requires DecodedFrom(Packet15(bullets), 3, BulletSize15 * |bullets|, calls, threw)
    ensures !threw
    ensures calls == seq(|bullets|, j requires 0 <= j < |bullets| => CallFor(bullets[j]))
  {
    var p := Packet15(bullets);
    assert (BulletSize15 * |bullets|) / BulletSize15 == |bullets|;
    assert Available(p, 3) >= |bullets|;
    forall j | 0 <= j < |bullets|
      ensures calls[j] == CallFor(bullets[j])
    {
      ReadBackRecord(bullets, j);
    }
  }

  /**
   * The full wire round trip: encode a list, deliver the buffer to
   * RPC_SpawnBullets. A list that fits spawns exactly its records, in order;
   * an oversized one yields an empty payload, on which the RPC throws.
   */
  method SpawnFromEncoded(bullets: seq<BulletSpawnData>) returns (calls: seq<SpawnCall>, threw: bool)
    ensures BulletSize15 * |bullets| <= 0xFFFF ==>
      !threw && calls == seq(|bullets|, j requires 0 <= j < |bullets| => CallFor(bullets[j]))
    ensures BulletSize15 * |bullets| > 0xFFFF ==> threw && calls == []
  {
    var buffer := EncodeBulletSpawn(bullets);
    calls, threw := RpcSpawnBullets(buffer);
    if BulletSize15 * |bullets| <= 0xFFFF {
      DecodeEncoded(bullets, calls, threw);
    }
  }

  /** The id that follows prev: prev + 1 on a 16-bit counter, skipping 0. */
  function NextBulletId(prev: u16): (r: u16)
    ensures r != 0
    ensures prev < 0xFFFF ==> r == prev + 1
    ensures prev == 0xFFFF ==> r == 1
  {
    var next := (prev + 1) % 0x1_0000;
    if next == 0 then 1 else next
  }

  /** The id k calls after prev. */
  function IdAfter(prev: u16, k: nat): u16
  {
    if k == 0 then prev else NextBulletId(IdAfter(prev, k - 1))
  }

  /** Closed form: from a nonzero id the counter cycles through 1 .. 65535. */
  lemma {:induction false} IdAfterClosedForm(prev: u16, k: nat)
    requires prev != 0
    ensures IdAfter(prev, k) == (prev - 1 + k) % 0xFFFF + 1
  {
    if k > 0 {
      IdAfterClosedForm(prev, k - 1);
    }
  }

  /** Any 65535 consecutive ids are pairwise distinct and nonzero. */
  lemma IdsDistinctWithinPeriod(prev: u16, k1: nat, k2: nat)
    requires 1 <= k1 < k2 <= 0xFFFF
    ensures IdAfter(prev, k1) != 0
    ensures IdAfter(prev, k1) != IdAfter(prev, k2)
  {
    var first := NextBulletId(prev);
    assert IdAfter(prev, 1) == first by { assert IdAfter(prev, 0) == prev; }
    IdAfterShift(prev, k1);
    IdAfterShift(prev, k2);
    IdAfterClosedForm(first, k1 - 1);
    IdAfterClosedForm(first, k2 - 1);
  }

  /** k calls after prev is k - 1 calls after the first id. */
  lemma {:induction false} IdAfterShift(prev: u16, k: nat)
    requires k >= 1
    ensures IdAfter(prev, k) == IdAfter(NextBulletId(prev), k - 1)
  {
    if k > 1 {
      IdAfterShift(prev, k - 1);
    }
  }

  /** The BulletSpawner object; only its id counter m_BulletId is modelled. */
  class BulletSpawner {
    var bulletId: u16

    constructor()
      ensures bulletId == 0
    {
      bulletId := 0;
    }

    /** GenerateBulletId: advance the counter, skipping 0, and return it. */
    method GenerateBulletId() returns (id: u16)
      modifies this
      ensures id == bulletId == NextBulletId(old(bulletId))
    {
      bulletId := (bulletId + 1) % 0x1_0000;
      if bulletId == 0 {
        bulletId := 1;
      }
      id := bulletId;
    }
  }
}
