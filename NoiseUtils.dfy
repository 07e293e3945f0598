/**
 * The integer seed and hash functions shared by all noise generators.
 * Every value is an unsigned 32-bit integer whose arithmetic wraps around,
 * which is exactly Dafny's `bv32`.
 */
module NoiseUtils {

  /** 2^32 - 1, the divisor that maps a hash into [0, 1]. */
  const MaxUInt: real := 4294967295.0

  /** The C# cast `(uint)i` of a 32-bit signed integer: two's complement reinterpretation. */
  function ToUInt(i: int): bv32
  {
    (i % 0x1_0000_0000) as bv32
  }

  /** `x << 16 | x >> 32 - 16`, as written in GetCellSeed2D. */
  function Rotl16(x: bv32): (r: bv32)
    ensures r == x.RotateLeft(16)
  {
    (x << 16) | (x >> 16)
  }

  lemma Rotl16Twice(x: bv32)
    ensures Rotl16(Rotl16(x)) == x
  {
  }

  /** Mixes a lattice cell (ix, iy) with a seed into a seed for that cell. */
  function GetCellSeed2D(ix: int, iy: int, seed: int): bv32
  {
    CellSeed(ToUInt(ix), ToUInt(iy), ToUInt(seed))
  }

  /** The body of GetCellSeed2D once its three arguments are cast to uint. */
  function CellSeed(a0: bv32, b0: bv32, seed: bv32): bv32
  {
    MixCell(a0 * (1284157443 * (seed + 83285486)), b0)
  }

  /** `b ^= a << s | a >> w - s`: x XORed with the other half k rotated by 16. */
  function XorRotated(x: bv32, k: bv32): bv32
  {
    x ^ Rotl16(k)
  }

  lemma XorRotatedTwice(x: bv32, k: bv32)
    ensures XorRotated(XorRotated(x, k), k) == x
  {
    assert XorRotated(x ^ Rotl16(k), k) == x;
  }

  /** `b *= 1911520717`. */
  function MulRow(x: bv32): bv32
  {
    x * 1911520717
  }

  /** Multiplication by 335132421, the inverse of 1911520717 modulo 2^32. */
  function UnmulRow(x: bv32): bv32
  {
    x * 335132421
  }

  lemma UnmulRowMulRow(x: bv32)
    ensures UnmulRow(MulRow(x)) == x
  {
    assert UnmulRow(x * 1911520717) == x;
  }

  /** `a *= 2048419325`. */
  function MulOut(x: bv32): bv32
  {
    x * 2048419325
  }

  /** Multiplication by 1193713493, the inverse of 2048419325 modulo 2^32. */
  function UnmulOut(x: bv32): bv32
  {
    x * 1193713493
  }

  lemma UnmulOutMulOut(x: bv32)
    ensures UnmulOut(MulOut(x)) == x
  {
    assert UnmulOut(x * 2048419325) == x;
  }

  /** The rest of GetCellSeed2D, from the first product a1 and the cast iy. */
  function MixCell(a1: bv32, b0: bv32): bv32
  {
    var b1 := XorRotated(b0, a1);
    var b2 := MulRow(b1);
    var a2 := XorRotated(a1, b2);
    MulOut(a2)
  }

  /** Recovers the row b0 from a1 and the seed, undoing the steps of MixCell in reverse order. */
  function UnmixCell(a1: bv32, r: bv32): bv32
  {
    var a2 := UnmulOut(r);
    var b2 := Rotl16(a2 ^ a1);
    var b1 := UnmulRow(b2);
    XorRotated(b1, a1)
  }

  lemma UnmixCellMixCell(a1: bv32, b0: bv32)
    ensures UnmixCell(a1, MixCell(a1, b0)) == b0
  {
    var b1 := XorRotated(b0, a1);
    var b2 := MulRow(b1);
    var a2 := XorRotated(a1, b2);
    UnmulOutMulOut(a2);
    assert (a1 ^ Rotl16(b2)) ^ a1 == Rotl16(b2);
    Rotl16Twice(b2);
    UnmulRowMulRow(b1);
    XorRotatedTwice(b0, a1);
  }

  /** For a fixed column and seed, distinct uint rows get distinct cell seeds. */
  lemma CellSeedRowInjective(a: bv32, b: bv32, b': bv32, seed: bv32)
    ensures CellSeed(a, b, seed) == CellSeed(a, b', seed) ==> b == b'
  {
    var a1 := a * (1284157443 * (seed + 83285486));
    UnmixCellMixCell(a1, b);
    UnmixCellMixCell(a1, b');
  }

  /**
   * Two lattice cells of one column never share a seed unless their rows are
   * the same 32-bit pattern.
   */
  lemma GetCellSeed2DRowInjective(ix: int, iy: int, jy: int, seed: int)
    ensures GetCellSeed2D(ix, iy, seed) == GetCellSeed2D(ix, jy, seed) ==> ToUInt(iy) == ToUInt(jy)
  {
    CellSeedRowInjective(ToUInt(ix), ToUInt(iy), ToUInt(jy), ToUInt(seed));
  }

  /** With ix = 0 the first product vanishes, so the seed no longer matters. */
  lemma CellSeedColumnZero(iy: int, seed1: int, seed2: int)
    ensures GetCellSeed2D(0, iy, seed1) == GetCellSeed2D(0, iy, seed2)
  {
    assert ToUInt(0) == 0;
    var s1, s2 := ToUInt(seed1), ToUInt(seed2);
    assert 0 * (1284157443 * (s1 + 83285486)) == 0;
    assert 0 * (1284157443 * (s2 + 83285486)) == 0;
  }

  lemma CellSeedGoldenOne()
    ensures GetCellSeed2D(1, 0, 0) == 3658973919
  {
    assert ToUInt(0) == 0 && ToUInt(1) == 1;
  }

  lemma CellSeedGoldenDiagonal()
    ensures GetCellSeed2D(1, 1, 0) == 548588431
  {
    assert ToUInt(0) == 0 && ToUInt(1) == 1;
  }

  lemma CellSeedGoldenSeeded()
    ensures GetCellSeed2D(3, 5, 7) == 2970708774
  {
    assert ToUInt(3) == 3 && ToUInt(5) == 5 && ToUInt(7) == 7;
  }

  /** `(uint)(-1)` is 0xFFFF_FFFF. */
  lemma ToUIntMinusOne()
    ensures ToUInt(-1) == 0xFFFF_FFFF
  {
    assert -1 % 0x1_0000_0000 == 0xFFFF_FFFF;
  }

  lemma CellSeedAllOnes()
    ensures CellSeed(0xFFFF_FFFF, 0xFFFF_FFFF, 0) == 3577655738
  {
  }

  /** (-1, -1) enters the mixer as the uint 0xFFFF_FFFF. */
  lemma CellSeedGoldenNegative()
    ensures GetCellSeed2D(-1, -1, 0) == 3577655738
  {
    ToUIntMinusOne();
    assert ToUInt(0) == 0;
    CellSeedAllOnes();
  }

  /** `s ^= s >> 16`, one xorshift round of the mixer. */
  function XorShift16(s: bv32): bv32
  {
    s ^ (s >> 16)
  }

  /** The top half passes through a round unchanged, so a second round undoes the first. */
  lemma XorShift16Twice(s: bv32)
    ensures XorShift16(XorShift16(s)) == s
  {
    assert XorShift16(s ^ (s >> 16)) == s;
  }

  /** `s ^= 2747636419u`, the first step of Hash. */
  function Whiten(s: bv32): bv32
  {
    s ^ 2747636419
  }

  lemma WhitenTwice(s: bv32)
    ensures Whiten(Whiten(s)) == s
  {
    assert Whiten(s ^ 2747636419) == s;
  }

  /** `s *= 2654435769u`, a multiplication by an odd constant. */
  function Mix(s: bv32): bv32
  {
    s * 2654435769
  }

  /** Multiplication by 340573321, the inverse of 2654435769 modulo 2^32. */
  function Unmix(s: bv32): bv32
  {
    s * 340573321
  }

  lemma UnmixMix(s: bv32)
    ensures Unmix(Mix(s)) == s
  {
    assert Unmix(s * 2654435769) == s;
  }

  /** The hash of H. Schechter and R. Bridson. */
  function Hash(s: bv32): bv32
  {
    var s1 := Whiten(s);
    var s2 := Mix(s1);
    var s3 := XorShift16(s2);
    var s4 := Mix(s3);
    var s5 := XorShift16(s4);
    Mix(s5)
  }

  /** Undoes the steps of Hash in reverse order. */
  function Unhash(h: bv32): bv32
  {
    var s5 := Unmix(h);
    var s4 := XorShift16(s5);
    var s3 := Unmix(s4);
    var s2 := XorShift16(s3);
    var s1 := Unmix(s2);
    Whiten(s1)
  }

  lemma UnhashHash(s: bv32)
    ensures Unhash(Hash(s)) == s
  {
    var s1 := Whiten(s);
    var s2 := Mix(s1);
    var s3 := XorShift16(s2);
    var s4 := Mix(s3);
    var s5 := XorShift16(s4);
    UnmixMix(s5);
    XorShift16Twice(s4);
    UnmixMix(s3);
    XorShift16Twice(s2);
    UnmixMix(s1);
    WhitenTwice(s);
  }

  /** Hash is a bijection on 32-bit values: no two seeds collide. */
  lemma HashInjective(s: bv32, t: bv32)
    ensures Hash(s) == Hash(t) ==> s == t
  {
    UnhashHash(s);
    UnhashHash(t);
  }

  lemma HashGoldenValues()
    ensures Hash(0) == 1739749167
    ensures Hash(1) == 150776505
    ensures Hash(Hash(0)) == 1640446612
  {
  }

  /** The value RandomFloat returns for a seed that has already been hashed. */
  function ToSignedUnit(h: bv32): (r: real)
    ensures -1.0 <= r <= 1.0
    ensures r / 2.0 + 0.5 == (h as int) as real / MaxUInt
  {
    (h as int) as real / MaxUInt * 2.0 - 1.0
  }

  /**
   * `RandomFloat(ref seed)`: the seed is replaced by its hash, and the
   * hash scaled into [-1, 1] is returned. The by-reference seed becomes the
   * second component of the result.
   */
  function RandomFloat(seed: bv32): (r: (real, bv32))
    ensures r.1 == Hash(seed)
    ensures -1.0 <= r.0 <= 1.0
  {
    var next := Hash(seed);
    (ToSignedUnit(next), next)
  }

  /** Two calls on the same seed variable consume Hash(s), then Hash(Hash(s)). */
  lemma RandomFloatTwice(s: bv32)
    ensures RandomFloat(s).1 == Hash(s)
    ensures RandomFloat(RandomFloat(s).1).1 == Hash(Hash(s))
    ensures RandomFloat(RandomFloat(s).1).0 == ToSignedUnit(Hash(Hash(s)))
  {
  }
}
