/**
 * CompressedVector2 from Network/BulletSpawner.cs: each component of a 2D
 * vector is scaled by 100, rounded to the nearest integer, offset by 32768
 * in C# int arithmetic and clamped into an unsigned 16-bit field. Floats are
 * modelled as reals.
 */
module VectorCodec {
  import opened BitConverter
  import opened CSharpInt

  const Scale: real := 100.0
  const Bias: int := 32768

  /** The smallest scaled component whose offset sum `k + 32768` wraps past int.MaxValue. */
  const WrapFrom: int := MaxInt32 + 1 - Bias

  datatype Vector2 = Vector2(x: real, y: real)

  datatype CompressedVector2 = CompressedVector2(x: u16, y: u16)

  /**
   * Math.Round on the mathematical value: the nearest integer, ties going
   * to the even neighbour.
   */
  function RoundToInt(r: real): (k: int)
    ensures r - 0.5 <= k as real <= r + 0.5
    ensures (k as real == r - 0.5 || k as real == r + 0.5) ==> k % 2 == 0
  {
    var f := r.Floor;
    var frac := r - f as real;
    if frac < 0.5 then f
    else if frac > 0.5 then f + 1
    else if f % 2 == 0 then f
    else f + 1
  }

  /**
   * The (int) conversion inside Mathf.RoundToInt. A rounded value outside
   * the int range converts to int.MinValue, as the x86/x64 conversion
   * instruction does.
   */
  function ToInt32(k: int): (r: int32)
    ensures MinInt32 <= k <= MaxInt32 ==> r == k
    ensures !(MinInt32 <= k <= MaxInt32) ==> r == MinInt32
  {
    if MinInt32 <= k <= MaxInt32 then k else MinInt32
  }

  /** The saturating conversion newer runtimes use for the same cast. */
  function ToInt32Saturating(k: int): (r: int32)
    ensures MinInt32 <= k <= MaxInt32 ==> r == k
    ensures k > MaxInt32 ==> r == MaxInt32
    ensures k < MinInt32 ==> r == MinInt32
  {
    if k > MaxInt32 then MaxInt32 else if k < MinInt32 then MinInt32 else k
  }

  /** Mathf.Clamp(v, lo, hi) on integers. */
  function ClampInt(v: int, lo: int, hi: int): (r: int)
    requires lo <= hi
    ensures lo <= r <= hi
    ensures lo <= v <= hi ==> r == v
    ensures v < lo ==> r == lo
    ensures v > hi ==> r == hi
  {
    if v < lo then lo else if v > hi then hi else v
  }

  /**
   * The compression of an already rounded component k: `k + 32768` in
   * unchecked int arithmetic, clamped to [0, 65535]. The sum wraps to a
   * negative value, and so clamps to 0, from WrapFrom on.
   */
  function CompressScaled(k: int32): (c: u16)
    ensures -Bias <= k < Bias ==> c == k + Bias
    ensures k < -Bias ==> c == 0
    ensures Bias <= k < WrapFrom ==> c == 0xFFFF
    ensures k >= WrapFrom ==> c == 0
  {
    ClampInt(Wrap(k + Bias), 0, 0xFFFF)
  }

  /**
   * CompressFloatToUShort: below the code range the code saturates at 0;
   * inside it the code is the scaled value, offset by 32768, to within the
   * rounding; above it the code saturates at 65535 until the offset sum
   * wraps, from where it is 0 again.
   */
  function CompressFloatToUShort(value: real): (c: u16)
    ensures value * Scale < -32768.5 ==> c == 0
    ensures -32768.5 <= value * Scale < 32767.5 ==> -0.5 <= (c - Bias) as real - value * Scale <= 0.5
    ensures 32767.5 <= value * Scale < WrapFrom as real - 0.5 ==> c == 0xFFFF
    ensures value * Scale >= WrapFrom as real - 0.5 ==> c == 0
  {
    var r := value * Scale;
    var k := RoundToInt(r);
    assert r >= 32767.5 ==> k >= Bias;
    assert r >= WrapFrom as real - 0.5 ==> k >= WrapFrom;
    CompressScaled(ToInt32(k))
  }

  /**
   * DecompressUShortToFloat: every code decodes into [-327.68, 327.67], and
   * compressing the decoded value gives the code back.
   */
  function DecompressUShortToFloat(value: u16): (f: real)
    ensures -327.68 <= f <= 327.67
    ensures CompressFloatToUShort(f) == value
  {
    var f := (value - Bias) as real / Scale;
    assert f * Scale == (value - Bias) as real;
    f
  }

  /**
   * CompressedVector2.FromVector2: each component is compressed on its own,
   * and a component in [-327.68, 327.67] decodes to within 0.005 of itself.
   */
  function FromVector2(v: Vector2): (c: CompressedVector2)
    ensures -327.68 <= v.x <= 327.67 ==> -0.005 <= DecompressUShortToFloat(c.x) - v.x <= 0.005
    ensures -327.68 <= v.y <= 327.67 ==> -0.005 <= DecompressUShortToFloat(c.y) - v.y <= 0.005
  {
    ComponentRoundTrip(v.x);
    ComponentRoundTrip(v.y);
    CompressedVector2(CompressFloatToUShort(v.x), CompressFloatToUShort(v.y))
  }

  /** CompressedVector2.ToVector2: compressing the decoded vector gives the same code. */
  function ToVector2(c: CompressedVector2): (v: Vector2)
    ensures FromVector2(v) == c
  {
    Vector2(DecompressUShortToFloat(c.x), DecompressUShortToFloat(c.y))
  }

  /** Decompression inverts compression exactly on in-range scaled integers. */
  lemma DecompressCompressScaled(k: int)
    requires -Bias <= k < Bias
    ensures DecompressUShortToFloat(CompressScaled(k)) == k as real / Scale
  {
  }

  /**
   * Round trip of one component: inside the representable range
   * [-327.68, 327.67] the decoded value is within 0.005 of the original.
   */
  lemma ComponentRoundTrip(value: real)
    ensures -327.68 <= value <= 327.67 ==>
      -0.005 <= DecompressUShortToFloat(CompressFloatToUShort(value)) - value <= 0.005
  {
    if !(-327.68 <= value <= 327.67) {
      return;
    }
    var r := value * Scale;
    var k := RoundToInt(r);
    assert -32768.0 <= r <= 32767.0;
    assert -Bias <= k < Bias;
    DecompressCompressScaled(k);
    assert DecompressUShortToFloat(CompressFloatToUShort(value)) == k as real / Scale;
    assert k as real / Scale - value == (k as real - r) / Scale;
  }

  /**
   * Whether an out-of-range float converts to int.MinValue or saturates
   * makes no difference to the code: both give 0.
   */
  lemma ConversionChoiceIrrelevant(value: real)
    ensures CompressScaled(ToInt32Saturating(RoundToInt(value * Scale))) == CompressFloatToUShort(value)
  {
    var k := RoundToInt(value * Scale);
    if k > MaxInt32 {
      assert CompressScaled(ToInt32Saturating(k)) == 0;
      assert CompressScaled(ToInt32(k)) == 0;
    }
  }
}
