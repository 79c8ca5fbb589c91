# Bullet evader core in Dafny

This project models the core of a multiplayer Unity bullet-dodging game that uses Photon Fusion. The host generates bullets and
packs them into a compact binary packet. An RPC carries the packet to every client. Each client decodes the packet and spawns
the bullets locally from an object pool. Each bullet tracks whether it has entered the screen and how long it has lived, and
returns itself to the pool when it leaves the screen or its life runs out. A game manager runs the Ready → Play state machine.

The model has these modules:

- `BitConverter` (bit_converter.dfy): the little-endian `BitConverter.GetBytes(ushort)` / `ToUInt16` pair.
- `CSharpInt` (csharp_int.dfy): C#'s 32-bit `int` and the wrap-around of unchecked arithmetic.
- `VectorCodec` (vector_codec.dfy): `CompressedVector2`. A coordinate × 100, rounded half to even and converted to `int`, is offset by 32768 in int arithmetic and clamped into a `ushort`.
- `BulletPacket` (bullet_packet.dfy): `BulletPacketEncoder.EncodeBulletSpawn`. This revision declares 15 bytes per bullet but writes 11, and the last 4·n bytes stay zero.
- `BulletSpawner` (bullet_spawner.dfy):
  - the `RPC_SpawnBullets` dispatch and `DecodeAndSpawnBullets`;
  - the encode/decode round trip;
  - `GenerateBulletId`.
- `Collections` and `CommonUtil` (common_util.dfy): `DequeueSafe`, `DecodeVariableBits`, and the 12-byte revision of `EncodeBulletSpawn`, which writes `patternOffset` too. Both encoder revisions are modelled as written and are not reconciled. They share one record type, `BulletSpawnData`, which carries `patternOffset`; the 15-byte revision ignores that field.
- `UnityScene` and `ObjectPool` (local_object_pool.dfy):
  - game objects are ids in a scene map, with `Instantiate`, `SetActive` and immediate `Destroy`;
  - `LocalObjectPool` is a class whose dictionaries are maps of FIFO queues (sequences).
- `BulletLifecycle` (bullet.dfy): the `Bullet` component as a class, each method tied to a pure step function on `BulletState`. The camera's viewport projection of the bullet is an input (`None` when there is no camera).
- `GameFlow` (game_manager.dfy): the `GameManager` class, tied to pure functions on `GameSnapshot`. The player object that the spawn call would create is a parameter.

.NET exceptions become outcome values:
- the decoder returns a `threw` flag together with the calls it made before throwing;
- `DecodeVariableBits` returns `None` where the source throws;
- `DequeueSafe` returns `CapacityOutOfRange` where `new List<T>(negative)` throws.

## Model

| member | source | states |
|---|---|---|
| `BitConverter.GetBytes` | Assets/Scripts/Network/BulletSpawner.cs:216-220 | two bytes, low byte first, whose little-endian value is the ushort |
| `BitConverter.ToUInt16` | Assets/Scripts/Network/BulletSpawner.cs:140 | a value exactly when two bytes are available at the index (otherwise the read throws); the value is their little-endian reading |
| `BitConverter.ToUInt16GetBytes` | Assets/Scripts/Network/BulletSpawner.cs:153-157 | reading back the two bytes GetBytes wrote, wherever they sit, gives the original value |
| `CSharpInt.Wrap` | Assets/Scripts/Network/BulletSpawner.cs:40 | an unchecked int result: congruent to the mathematical one modulo 2^32, equal to it inside the int range, and shifted down by 2^32 just above int.MaxValue |
| `VectorCodec.RoundToInt` | Assets/Scripts/Network/BulletSpawner.cs:40 | the rounding in Mathf.RoundToInt: within 0.5 of the argument, and even on a tie |
| `VectorCodec.ToInt32` | Assets/Scripts/Network/BulletSpawner.cs:40 | the float-to-int conversion in Mathf.RoundToInt: exact inside the int range, int.MinValue outside it (x86/x64) |
| `VectorCodec.ToInt32Saturating` | Assets/Scripts/Network/BulletSpawner.cs:40 | the alternative conversion of newer runtimes: exact inside the int range, and int.MaxValue or int.MinValue outside it |
| `VectorCodec.ConversionChoiceIrrelevant` | Assets/Scripts/Network/BulletSpawner.cs:38-42 | both conversions give the same code for every coordinate |
| `VectorCodec.ClampInt` | Assets/Scripts/Network/BulletSpawner.cs:41 | Mathf.Clamp on ints: the result lies in [lo, hi]; it is v inside that range, lo below it and hi above it |
| `VectorCodec.CompressScaled` | Assets/Scripts/Network/BulletSpawner.cs:40-41 | for a rounded int k: k + 32768 for k in [-32768, 32767], and 0 below that range. Above it the result is 65535 until `k + 32768` wraps past int.MaxValue (k ≥ 2^31 − 32768), and 0 from there on |
| `VectorCodec.CompressFloatToUShort` | Assets/Scripts/Network/BulletSpawner.cs:38-42 | a coordinate c maps to 0 when 100c < −32768.5. From there up to 100c < 32767.5 the code minus 32768 is within 0.5 of 100c. It is 65535 while 100c < 2^31 − 32768.5, and 0 again from there |
| `VectorCodec.DecompressUShortToFloat` | Assets/Scripts/Network/BulletSpawner.cs:44-47 | every code decodes into [-327.68, 327.67], and compressing the decoded value gives the code back |
| `VectorCodec.FromVector2` | Assets/Scripts/Network/BulletSpawner.cs:21-28 | each component is compressed on its own, and a component in [-327.68, 327.67] decodes to within 0.005 of itself |
| `VectorCodec.ToVector2` | Assets/Scripts/Network/BulletSpawner.cs:30-36 | FromVector2(ToVector2(c)) == c for every compressed vector |
| `VectorCodec.DecompressCompressScaled` | Assets/Scripts/Network/BulletSpawner.cs:38-47 | decompress(compress(k/100)) == k/100 for every in-range integer k |
| `VectorCodec.ComponentRoundTrip` | Assets/Scripts/Network/BulletSpawner.cs:38-47 | a coordinate in [-327.68, 327.67] comes back within 0.005 of itself |
| `BulletPacket.Packet15` | Assets/Scripts/Network/BulletSpawner.cs:198-212 | the packet has length 3 + 15n, type byte 1, and the little-endian length field 15n |
| `BulletPacket.EncodeBulletSpawn` | Assets/Scripts/Network/BulletSpawner.cs:196-225 | an empty array exactly when 15n > 65535; otherwise the buffer is exactly Packet15 of the list |
| `BulletPacket.WriteHeader` | Assets/Scripts/Network/BulletSpawner.cs:211-212 | the type byte, then the length little-endian, with the rest of the buffer still zero |
| `BulletPacket.WriteRecord11` | Assets/Scripts/Network/BulletSpawner.cs:216-221 | one record is written at the offset (id, pos.x, pos.y, dir.x, dir.y, pattern); every other byte is kept |
| `BulletPacket.WriteRecords11` | Assets/Scripts/Network/BulletSpawner.cs:214-222 | the record loop: after the 3 header bytes the buffer holds the records of the whole list in order, the header is kept and the rest stays zero |
| `BulletPacket.AppendRecord11` | Assets/Scripts/Network/BulletSpawner.cs:216-221 | one turn of the loop: with the first i records written, record i follows them and the rest stays zero |
| `BulletPacket.WriteFields` | Assets/Scripts/Network/BulletSpawner.cs:216-220 | the five 16-bit fields are written little-endian at the offset, and every other byte is kept |
| `BulletPacket.CopyTo` | Assets/Scripts/Network/BulletSpawner.cs:212 | Array.CopyTo overwrites exactly the target range with the source |
| `BulletPacket.Records11At` | Assets/Scripts/Network/BulletSpawner.cs:214-222 | record j of the list lies at an 11-byte stride, in list order |
| `BulletPacket.Packet15RecordAt` | Assets/Scripts/Network/BulletSpawner.cs:208-222 | record j of the packet occupies bytes 3+11j .. 3+11j+10 |
| `BulletPacket.Packet15Tail` | Assets/Scripts/Network/BulletSpawner.cs:198-208 | every byte after the last record (4n of them) stays zero |
| `BulletSpawner.ReadRecord11` | Assets/Scripts/Network/BulletSpawner.cs:153-161 | a record exactly when 11 bytes are available at the offset |
| `BulletSpawner.DecodeAndSpawnBullets` | Assets/Scripts/Network/BulletSpawner.cs:146-165 | it spawns length/15 records at an 11-byte stride, in order; it throws exactly when the payload holds fewer, after spawning every whole record available |
| `BulletSpawner.RpcSpawnBullets` | Assets/Scripts/Network/BulletSpawner.cs:135-144 | it throws on a payload shorter than the header; a type byte other than BulletSpawn decodes nothing; BulletSpawn decodes from offset 3 with the header's length |
| `BulletSpawner.ReadBackRecord` | Assets/Scripts/Network/BulletSpawner.cs:153-163 | record j of an encoded packet is read back as the SpawnBullet call for bullet j |
| `BulletSpawner.DecodeEncoded` | Assets/Scripts/Network/BulletSpawner.cs:146-165 | decoding an encoded packet cannot throw and yields one call per bullet, equal to the list, in order |
| `BulletSpawner.SpawnFromEncoded` | Assets/Scripts/Network/BulletSpawner.cs:135-165 | sending an encoded list through the RPC spawns exactly that list; an oversized list gives an empty array, which throws on receipt |
| `BulletSpawner.NextBulletId` | Assets/Scripts/Network/BulletSpawner.cs:186-191 | never 0, prev+1 otherwise, and 65535 is followed by 1 |
| `BulletSpawner.IdAfterClosedForm` | Assets/Scripts/Network/BulletSpawner.cs:186-191 | from a nonzero id, the counter cycles through 1..65535: after k calls it is (prev-1+k) mod 65535 + 1 |
| `BulletSpawner.IdsDistinctWithinPeriod` | Assets/Scripts/Network/BulletSpawner.cs:186-191 | any 65535 consecutive ids are nonzero and pairwise distinct |
| `BulletSpawner.BulletSpawner.constructor` | Assets/Scripts/Network/BulletSpawner.cs:63 | the counter starts at 0 |
| `BulletSpawner.BulletSpawner.GenerateBulletId` | Assets/Scripts/Network/BulletSpawner.cs:186-191 | the field and the returned id are both NextBulletId of the old field |
| `Collections.Queue.Dequeue` | Assets/Scripts/CommonUtil.cs:55 | it removes and returns the front of a non-empty queue |
| `CommonUtil.Min` | Assets/Scripts/CommonUtil.cs:50 | Mathf.Min on ints: no larger than either argument, and equal to one of them |
| `CommonUtil.DequeueSafe` | Assets/Scripts/CommonUtil.cs:43-59 | a null or empty queue gives null and is untouched; a negative count throws and leaves the queue untouched; otherwise it returns the first min(k, \|q\|) items in FIFO order, and the queue keeps the rest |
| `CommonUtil.DecodeVariableBits` | Assets/Scripts/CommonUtil.cs:67-79 | it throws exactly when totalBits is outside [1,8]; otherwise the list has totalBits entries, and entry i is bit i of the value, LSB first |
| `CommonUtil.Flags` | Assets/Scripts/CommonUtil.cs:72-78 | the reference list of the first t bits, LSB first |
| `CommonUtil.FlagsRecompose` | Assets/Scripts/CommonUtil.cs:61-66 | the low t flags, read back as a number, plus 2^t · (value >> t) give the value |
| `CommonUtil.DecodeBitsRoundTrip` | Assets/Scripts/CommonUtil.cs:61-66 | the eight flags of a byte read back as the byte |
| `CommonUtil.Packet12` | Assets/Scripts/CommonUtil.cs:83-97 | the packet has length 3 + 12n, type byte 1, and the little-endian length field 12n |
| `CommonUtil.EncodeBulletSpawn` | Assets/Scripts/CommonUtil.cs:81-111 | an empty array exactly when 12n > 65535; otherwise the buffer is exactly Packet12 of the list |
| `CommonUtil.WriteRecord12` | Assets/Scripts/CommonUtil.cs:101-107 | one 12-byte record is written at the offset (the five fields, pattern, offset); every other byte is kept |
| `CommonUtil.WriteRecords12` | Assets/Scripts/CommonUtil.cs:99-108 | the record loop: after the 3 header bytes the buffer holds the 12-byte records of the whole list in order, the header is kept and the rest stays zero |
| `CommonUtil.AppendRecord12` | Assets/Scripts/CommonUtil.cs:101-107 | one turn of the loop: with the first i records written, record i follows them and the rest stays zero |
| `CommonUtil.ReadRecord12` | Assets/Scripts/CommonUtil.cs:99-108 | the reference reader: a record exactly when 12 bytes are available |
| `CommonUtil.Records12At` | Assets/Scripts/CommonUtil.cs:99-108 | record j lies at a 12-byte stride, in list order |
| `CommonUtil.Packet12RecordRoundTrip` | Assets/Scripts/CommonUtil.cs:99-108 | reading record j of an encoded packet gives bullet j back, patternOffset included |
| `CommonUtil.Packet12Covered` | Assets/Scripts/CommonUtil.cs:93-110 | every byte after the header belongs to a record: no byte is left unwritten |
| `UnityScene.Scene.Instantiate` | Assets/Scripts/Pooling/LocalObjectPool.cs:33 | a fresh object, named after the original plus "(Clone)"; all others are unchanged |
| `UnityScene.Scene.SetActive` | Assets/Scripts/Pooling/LocalObjectPool.cs:35 | only that object's active flag changes |
| `UnityScene.Scene.SetName` | Assets/Scripts/Pooling/LocalObjectPool.cs:34 | only that object's name changes |
| `UnityScene.Scene.SetPose` | Assets/Scripts/Pooling/LocalObjectPool.cs:52 | only that object's position and rotation change |
| `UnityScene.Scene.Destroy` | Assets/Scripts/Pooling/LocalObjectPool.cs:66 | the object is gone and every other object is unchanged |
| `ObjectPool.LocalObjectPool.constructor` | Assets/Scripts/Pooling/LocalObjectPool.cs:8-10 | all three dictionaries start empty |
| `ObjectPool.LocalObjectPool.RegisterPrefab` | Assets/Scripts/Pooling/LocalObjectPool.cs:22-40 | a second registration of a name changes nothing; a first one records the prefab and creates a queue of max(prewarmCount,0) distinct fresh objects, inactive and named by the key; other queues and objects are unchanged |
| `ObjectPool.LocalObjectPool.Prewarm` | Assets/Scripts/Pooling/LocalObjectPool.cs:31-37 | the prewarm loop fills the empty queue with max(prewarmCount,0) distinct fresh objects, inactive and named by the key, each also added to the scene; nothing else changes |
| `ObjectPool.LocalObjectPool.PrewarmOne` | Assets/Scripts/Pooling/LocalObjectPool.cs:33-36 | one fresh clone, renamed to the key, deactivated, and appended to the key's queue |
| `ObjectPool.LocalObjectPool.Get` | Assets/Scripts/Pooling/LocalObjectPool.cs:42-56 | an unregistered key gives null and changes nothing. Otherwise the front of the queue is reused (FIFO, the queue shrinks by one), or a new object is created if the queue is empty; the object returned is active, named by the key and at the pose, and all others are unchanged |
| `ObjectPool.LocalObjectPool.Activate` | Assets/Scripts/Pooling/LocalObjectPool.cs:51-53 | the object is renamed to the key, placed at the pose and activated; no other object changes |
| `ObjectPool.LocalObjectPool.Release` | Assets/Scripts/Pooling/LocalObjectPool.cs:58-71 | the object is deactivated and appended to the back of its name's queue only; with no pool for its name, it is destroyed and no queue changes |
| `ObjectPool.LocalObjectPool.ReleaseBulletById` | Assets/Scripts/Pooling/LocalObjectPool.cs:73-83 | an unmapped id changes nothing; a mapped id is released as by Release. No method ever changes the map and the constructor leaves it empty, so every call is a no-op |
| `ObjectPool.ReuseAfterRelease` | Assets/Scripts/Pooling/LocalObjectPool.cs:50 | the object just released to an empty queue is the next one Get hands out |
| `BulletLifecycle.InScreen` | Assets/Scripts/Game/Bullet.cs:92-95 | the whole visible viewport in front of the camera counts as on screen. Anything on screen is in front of the camera and within the 0.08 margin around the viewport |
| `BulletLifecycle.Sign` | Assets/Scripts/Game/Bullet.cs:195 | Mathf.Sign: 1 or −1, with the argument's sign, and 1 for zero |
| `BulletLifecycle.TransitionsKeepLaunchConsistent` | Assets/Scripts/Game/Bullet.cs:50-106 | launched == wasInScreen is kept by a tick, OnEnable, SetId and SetPattern |
| `BulletLifecycle.TickReleases` | Assets/Scripts/Game/Bullet.cs:75-79 | a tick releases once for leaving the screen after having entered it, and once for reaching the lifespan; the bullet stays active iff neither happens; the life timer grows by dt |
| `BulletLifecycle.TickLaunches` | Assets/Scripts/Game/Bullet.cs:97-101 | both flags become set exactly when the projection is in the margin-extended screen, and then stay set |
| `BulletLifecycle.ReleasedTwiceInOneTick` | Assets/Scripts/Game/Bullet.cs:75-79 | for every state, projection and dt: a bullet that had entered the screen, and leaves it on the tick its lifespan is reached, is handed to the pool twice in that tick and ends inactive |
| `BulletLifecycle.SpreadWithZeroTimer` | Assets/Scripts/Game/Bullet.cs:143-151 | with timer 0 and a positive stamp, every tick requests a spread shot and the stamp becomes dt |
| `BulletLifecycle.SpawnedSpreadTimerIsZero` | Assets/Scripts/Game/Bullet.cs:174-179 | after OnEnable and SetPattern(Spread) with the default offset, the timer is 0; OnEnable does not reset the stamp |
| `BulletLifecycle.ReleasedWithinLifespan` | Assets/Scripts/Game/Bullet.cs:77-79 | an active bullet is released within any run of at least one tick whose total time brings its timer to the lifespan, including one whose timer has already reached it |
| `BulletLifecycle.OffScreenOnlyLifespan` | Assets/Scripts/Game/Bullet.cs:88-105 | a bullet that never enters the screen is never launched. It is released at most once, and only when its life timer has reached the lifespan |
| `BulletLifecycle.Bullet.constructor` | Assets/Scripts/Game/Bullet.cs:17-57 | the field initialisers followed by the first OnEnable |
| `BulletLifecycle.Bullet.IsLaunched` | Assets/Scripts/Game/Bullet.cs:21 | a bullet counts as launched exactly when it has been on screen since it was last enabled |
| `BulletLifecycle.Bullet.OnEnable` | Assets/Scripts/Game/Bullet.cs:50-57 | launched, wasInScreen, lifeTimer, spreadTimer and pattern are reset; the spread stamp and id are kept; launched == wasInScreen holds afterwards |
| `BulletLifecycle.Bullet.SetActive` | Assets/Scripts/Game/Bullet.cs:203 | OnEnable runs only when an inactive bullet is switched on; launched == wasInScreen is kept |
| `BulletLifecycle.Bullet.FixedUpdate` | Assets/Scripts/Game/Bullet.cs:59-80 | the new fields, the release count and the spread request are those of Ticked, and launched == wasInScreen is kept |
| `BulletLifecycle.Bullet.UpdateSpread` | Assets/Scripts/Game/Bullet.cs:143-151 | it fires only when the stamp exceeds the timer, resets the stamp to 0, then adds dt; launched == wasInScreen is kept |
| `BulletLifecycle.Bullet.CheckScreenBoundary` | Assets/Scripts/Game/Bullet.cs:87-106 | no camera does nothing; the first in-screen projection (depth > 0, both coordinates in [-0.08, 1.08]) sets both flags; leaving after that releases; launched == wasInScreen is kept |
| `BulletLifecycle.Bullet.ReleaseObject` | Assets/Scripts/Game/Bullet.cs:200-206 | the bullet is deactivated; launched == wasInScreen is kept |
| `BulletLifecycle.Bullet.SetId` | Assets/Scripts/Game/Bullet.cs:153-157 | 0 keeps the previous id; a positive id is stored; launched == wasInScreen is kept |
| `BulletLifecycle.Bullet.SetPattern` | Assets/Scripts/Game/Bullet.cs:159-198 | it stores the pattern and level speed. Spread sets the timer to offset·0.1 only for a positive offset; Fan stores the centre and an angular speed of ±(45 + levelSpeed); launched == wasInScreen is kept |
| `GameFlow.Increment` | Assets/Scripts/Network/GameManager.cs:70 | `ScoreTail++` in unchecked int: x+1 below int.MaxValue; int.MaxValue wraps to int.MinValue |
| `GameFlow.Clamp` | Assets/Scripts/Network/GameManager.cs:68 | the result lies in [min,max], and equals the value when the value lies in that range |
| `GameFlow.GamePlayScoresOnlyInPlay` | Assets/Scripts/Network/GameManager.cs:60-78 | Ready, GameOver and StateCount change nothing; Play advances ScoreTail by exactly one and touches only the score and level fields |
| `GameFlow.LevelUpRule` | Assets/Scripts/Network/GameManager.cs:65-69 | the level or timestamp changes exactly when in Play past 30; a level-up resets the timestamp and sets the level to min(level+0.3, 5) |
| `GameFlow.LevelBoundedAndMonotone` | Assets/Scripts/Network/GameManager.cs:65-69 | over any number of ticks, a level in [1,5] stays in [1,5] and never decreases |
| `GameFlow.TimestampNeverAdvances` | Assets/Scripts/Network/GameManager.cs:57-79 | ticks only ever reset the level-up timestamp to 0; nothing advances it |
| `GameFlow.ReplayFromInitial` | Assets/Scripts/Network/GameManager.cs:19-34 | from the initial fields, after any ticks and spawn calls: the timestamp stays 0, the level stays 1, GameOver is never reached, and the state is Play iff a player exists |
| `GameFlow.ReplayKeepsReachable` | Assets/Scripts/Network/GameManager.cs:57-100 | ticks and spawn calls preserve that reachable-state invariant |
| `GameFlow.SpawnOnlyOnce` | Assets/Scripts/Network/GameManager.cs:81-100 | in Ready with no player, it spawns, moves to Play, hides the ready text and starts Spread then Winder; any other call returns the current player and changes nothing; a second call is a no-op |
| `GameFlow.GameManager.constructor` | Assets/Scripts/Network/GameManager.cs:19-37 | the initial fields: Ready, level 1, timestamp 0, score 0, no player |
| `GameFlow.GameManager.GamePlay` | Assets/Scripts/Network/GameManager.cs:57-79 | the new fields are GamePlayed of the old ones |
| `GameFlow.GameManager.SpawnPlayer` | Assets/Scripts/Network/GameManager.cs:81-91 | the new fields, the returned player and the started patterns are those of SpawnedPlayer |
| `GameFlow.GameManager.GameStart` | Assets/Scripts/Network/GameManager.cs:93-100 | Play, the ready text hidden, and Spread and Winder started, in that order |
| `GameFlow.GameManager.RpcUpdateGameLevel` | Assets/Scripts/Network/GameManager.cs:107-110 | only the level changes, to the given value |

## Left out

- Photon Fusion transport: RPC delivery, `Spawned`, `FixedUpdateNetwork`, `Runner.Spawn` and the SpawnManager wrapper. The RPC bodies are modelled as plain methods, and the spawned player is a parameter.
- `SpawnBullet` (the pool `Get` plus `SetId`/`SetPattern` glue): the decoder returns the list of SpawnBullet calls it makes instead of performing them.
- Floating point: every C# `float` is a real, and float arithmetic is exact. This covers the coordinates, the codec's `value * 100f` and `k / 100f`, and the Bullet's `m_LifeTimer`, `m_SpreadTimeStamp` and `m_SpreadTimer`. It also covers `bulletOffset * 0.1f` and GameManager's `GameLevel` and `m_LevelUpTimeStamp`. So the tick counts of `BulletLifecycle.ReleasedWithinLifespan` and the level steps of 0.3 are statements over reals, not over float32 sums. Mathf.RoundToInt's half-to-even rounding is modelled, and so are its conversion to int and the int wrap of `+ 32768`.
- `BulletPacket.EncodeBulletSpawn`: `bullets.Count * 15` is taken as unbounded. From 143,165,577 records up, the source's int product wraps modulo 2^32. A wrapped size below −3 makes `new byte[3 + payloadSize]` throw OverflowException. A wrapped size from −3 to −1 allocates at most two bytes, so the header write throws. A wrapped size in [0, 65535] allocates a buffer too short for the records, so the copy loop throws. Only a wrapped size above 65535 gives the empty array. The model returns the empty array for every list of more than 4369 records.
- `CommonUtil.EncodeBulletSpawn`: the same holds for `bullets.Count * 12`. Here the wrap begins at 178,956,971 records, and the model returns the empty array for every list of more than 5461 records.
- Log output: the `Debug.Log`, `Debug.LogWarning` and `Debug.LogError` calls are left out. These are in both `EncodeBulletSpawn` revisions ("Payload too large"), `LocalObjectPool.RegisterPrefab`, `Get` (unknown pool), `Release` (no pool for the name) and `ReleaseBulletById` (unknown id), and in `SpawnBullet`. On `ReleaseBulletById`'s unknown-id path the log is the source's only signal. The model's outcome there is an unchanged pool. On `Get`'s unknown-pool path the source also returns null, which the model keeps as `None`.
- The record type is shared by both encoder revisions and carries `patternOffset`. The 15-byte revision's struct has no such field, and its encoder never reads it.
- Bullet motion: `MoveBullet`, `UpdateFan`, `ApplyHomingRotation` and every rigidbody velocity write. The direction normalisation in `SetPattern` is also left out, and the sign of `Vector2.SignedAngle` is an input.
- `BulletLifecycle.Bullet.ReleaseObject`: the hand-over to `LocalObjectPool.Release` is counted as a release by the caller rather than performed. The pool's own `Release` is modelled in `ObjectPool`.
- `RequestSpreadShot` and `RunPattern`: the model records that a shot was requested and which patterns were started, but not the pattern coroutines.
- Unity object lifetime: `Destroy` is taken as immediate, and objects are abstract ids with a name, an active flag and a pose.
- `OnTriggerEnter2D` collisions, audio, animation, input polling, the lobby and the camera (the camera's viewport projection is an input).
- `GameFlow.GameManager.SpawnPlayer`: the `ref Action<PlayerInputBase>` delegate assignment is not modelled.
- The ready text (`m_ReadyText`) is taken to be active when the game starts. Its initial state is a scene setting outside GameManager.cs, and `GameFlow.Reachable` relies on it.
- `ScoreHead` is never written in this code and is not modelled.
