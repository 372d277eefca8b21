/** Bytes on the wire: fixed-width integers in big-endian order (Appendix B of RFC 791) and the
    two ways the programs move a 64-bit floating-point pattern. A binary64 value (section 3.4 of
    IEEE 754-2019) is only ever copied, so it is carried here as its 64-bit pattern. */
module Bytes {

  datatype Option<+T> = None | Some(value: T)

  datatype Result<+T, +E> = Ok(value: T) | Err(error: E)

  type byte = x: int | 0 <= x < 256
  type u16 = x: int | 0 <= x < 0x1_0000
  type u32 = x: int | 0 <= x < 0x1_0000_0000
  type bytes = seq<byte>

  // ----- big-endian integers -----

  function Be16(n: u16): (s: bytes)
    ensures |s| == 2
  {
    [n / 256, n % 256]
  }

  function LoadBe16(s: bytes): u16
    requires |s| == 2
  {
    var high: int := s[0];
    high * 256 + s[1]
  }

  function Be32(n: u32): (s: bytes)
    ensures |s| == 4
  {
    Be16(n / 0x1_0000) + Be16(n % 0x1_0000)
  }

  function LoadBe32(s: bytes): u32
    requires |s| == 4
  {
    var high: int := LoadBe16(s[..2]);
    high * 0x1_0000 + LoadBe16(s[2..])
  }

  lemma Be16RoundTrip(n: u16)
    ensures LoadBe16(Be16(n)) == n
  {
  }

  lemma Be32RoundTrip(n: u32)
    ensures LoadBe32(Be32(n)) == n
  {
    assert Be32(n)[..2] == Be16(n / 0x1_0000) && Be32(n)[2..] == Be16(n % 0x1_0000);
  }

  /** A slice of what lies from `offset` on is a slice of the whole. */
  lemma SliceOfRest(s: bytes, offset: nat, i: nat, j: nat)
    requires offset + j <= |s| && i <= j
    ensures s[offset..][i..j] == s[offset + i..offset + j]
    ensures s[offset..][j..] == s[offset + j..]
  {
  }

  // ----- 64-bit patterns -----

  /** The low eight bits of a word. */
  function Low(w: bv64): byte {
    ((w & 0xFF) as bv8) as int
  }

  function Widen(b: byte): bv64 {
    (b as bv8) as bv64
  }

  /** The client's hand-written byte reversal. */
  function SwapWord(w: bv64): bv64 {
    ((w & 0xFF00000000000000) >> 56) |
    ((w & 0x00FF000000000000) >> 40) |
    ((w & 0x0000FF0000000000) >> 24) |
    ((w & 0x000000FF00000000) >> 8)  |
    ((w & 0x00000000FF000000) << 8)  |
    ((w & 0x0000000000FF0000) << 24) |
    ((w & 0x000000000000FF00) << 40) |
    ((w & 0x00000000000000FF) << 56)
  }

  /** The memory image of a word on a little-endian host. */
  function Le64(w: bv64): (s: bytes)
    ensures |s| == 8
  {
    [Low(w), Low(w >> 8), Low(w >> 16), Low(w >> 24), Low(w >> 32), Low(w >> 40), Low(w >> 48), Low(w >> 56)]
  }

  function LoadLe64(s: bytes): bv64
    requires |s| == 8
  {
    (Widen(s[7]) << 56) | (Widen(s[6]) << 48) | (Widen(s[5]) << 40) | (Widen(s[4]) << 32) |
    (Widen(s[3]) << 24) | (Widen(s[2]) << 16) | (Widen(s[1]) << 8) | Widen(s[0])
  }

  function Be64(w: bv64): (s: bytes)
    ensures |s| == 8
  {
    [Low(w >> 56), Low(w >> 48), Low(w >> 40), Low(w >> 32), Low(w >> 24), Low(w >> 16), Low(w >> 8), Low(w)]
  }

  function LoadBe64(s: bytes): bv64
    requires |s| == 8
  {
    (Widen(s[0]) << 56) | (Widen(s[1]) << 48) | (Widen(s[2]) << 40) | (Widen(s[3]) << 32) |
    (Widen(s[4]) << 24) | (Widen(s[5]) << 16) | (Widen(s[6]) << 8) | Widen(s[7])
  }

  lemma SwapInvolution(w: bv64)
    ensures SwapWord(SwapWord(w)) == w
  {
  }

  /** Bytes of the swapped word, low byte first, are the bytes of the word, high byte first. */
  lemma SwapReversesBytes(w: bv64)
    ensures Le64(SwapWord(w)) == Be64(w)
  {
    SwapMovesBytes(w);
  }

  lemma SwapMovesBytes(w: bv64)
    ensures SwapWord(w) & 0xFF == (w >> 56) & 0xFF && (SwapWord(w) >> 8) & 0xFF == (w >> 48) & 0xFF
    ensures (SwapWord(w) >> 16) & 0xFF == (w >> 40) & 0xFF && (SwapWord(w) >> 24) & 0xFF == (w >> 32) & 0xFF
    ensures (SwapWord(w) >> 32) & 0xFF == (w >> 24) & 0xFF && (SwapWord(w) >> 40) & 0xFF == (w >> 16) & 0xFF
    ensures (SwapWord(w) >> 48) & 0xFF == (w >> 8) & 0xFF && (SwapWord(w) >> 56) & 0xFF == w & 0xFF
  {
  }

  /** Loading low byte first and swapping reads the same word as loading high byte first. */
  lemma SwapOfLoad(s: bytes)
    requires |s| == 8
    ensures SwapWord(LoadLe64(s)) == LoadBe64(s)
  {
    SwapOfJoin(Widen(s[7]), Widen(s[6]), Widen(s[5]), Widen(s[4]), Widen(s[3]), Widen(s[2]), Widen(s[1]), Widen(s[0]));
  }

  lemma SwapOfJoin(a: bv64, b: bv64, c: bv64, d: bv64, e: bv64, f: bv64, g: bv64, h: bv64)
    requires a <= 0xFF && b <= 0xFF && c <= 0xFF && d <= 0xFF && e <= 0xFF && f <= 0xFF && g <= 0xFF && h <= 0xFF
    ensures SwapWord((a << 56) | (b << 48) | (c << 40) | (d << 32) | (e << 24) | (f << 16) | (g << 8) | h)
         == (h << 56) | (g << 48) | (f << 40) | (e << 32) | (d << 24) | (c << 16) | (b << 8) | a
  {
  }

  lemma LiftLow(w: bv64)
    ensures Widen(Low(w)) == w & 0xFF
  {
    NarrowRoundTrip((w & 0xFF) as bv8);
  }

  lemma NarrowRoundTrip(b: bv8)
    ensures (b as int) as bv8 == b
  {
  }

  lemma Be64RoundTrip(w: bv64)
    ensures LoadBe64(Be64(w)) == w
  {
    LiftLow(w); LiftLow(w >> 8); LiftLow(w >> 16); LiftLow(w >> 24);
    LiftLow(w >> 32); LiftLow(w >> 40); LiftLow(w >> 48); LiftLow(w >> 56);
    JoinOfSplit(w);
  }

  lemma JoinOfSplit(w: bv64)
    ensures (((w >> 56) & 0xFF) << 56) | (((w >> 48) & 0xFF) << 48) | (((w >> 40) & 0xFF) << 40)
          | (((w >> 32) & 0xFF) << 32) | (((w >> 24) & 0xFF) << 24) | (((w >> 16) & 0xFF) << 16)
          | (((w >> 8) & 0xFF) << 8) | (w & 0xFF) == w
  {
  }
}
