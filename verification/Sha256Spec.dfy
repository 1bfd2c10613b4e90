/** SHA-256 as FIPS 180-4 defines it, on messages of whole bytes. */
module Sha256Spec {

  type Byte = bv8
  type Word = bv32

  /** Addition modulo 2^32 (section 3.2) of two, four and five words. */
  function Plus(x: Word, y: Word): Word {
    x + y
  }

  function Sum4(x: Word, y: Word, z: Word, u: Word): Word {
    x + y + z + u
  }

  function Sum5(x: Word, y: Word, z: Word, u: Word, v: Word): Word {
    x + y + z + u + v
  }

  // ---- section 4.1.2: functions

  function Ch(x: Word, y: Word, z: Word): Word {
    (x & y) ^ (!x & z)
  }

  function Maj(x: Word, y: Word, z: Word): Word {
    (x & y) ^ (x & z) ^ (y & z)
  }

  function BigSigma0(x: Word): Word {
    x.RotateRight(2) ^ x.RotateRight(13) ^ x.RotateRight(22)
  }

  function BigSigma1(x: Word): Word {
    x.RotateRight(6) ^ x.RotateRight(11) ^ x.RotateRight(25)
  }

  function SmallSigma0(x: Word): Word {
    x.RotateRight(7) ^ x.RotateRight(18) ^ (x >> 3)
  }

  function SmallSigma1(x: Word): Word {
    x.RotateRight(17) ^ x.RotateRight(19) ^ (x >> 10)
  }

  // ---- sections 4.2.2 and 5.3.3: constants

  const K_ROW0: seq<Word> :=
    [0x428a2f98, 0x71374491, 0xb5c0fbcf, 0xe9b5dba5, 0x3956c25b, 0x59f111f1, 0x923f82a4, 0xab1c5ed5]
  const K_ROW1: seq<Word> :=
    [0xd807aa98, 0x12835b01, 0x243185be, 0x550c7dc3, 0x72be5d74, 0x80deb1fe, 0x9bdc06a7, 0xc19bf174]
  const K_ROW2: seq<Word> :=
    [0xe49b69c1, 0xefbe4786, 0x0fc19dc6, 0x240ca1cc, 0x2de92c6f, 0x4a7484aa, 0x5cb0a9dc, 0x76f988da]
  const K_ROW3: seq<Word> :=
    [0x983e5152, 0xa831c66d, 0xb00327c8, 0xbf597fc7, 0xc6e00bf3, 0xd5a79147, 0x06ca6351, 0x14292967]
  const K_ROW4: seq<Word> :=
    [0x27b70a85, 0x2e1b2138, 0x4d2c6dfc, 0x53380d13, 0x650a7354, 0x766a0abb, 0x81c2c92e, 0x92722c85]
  const K_ROW5: seq<Word> :=
    [0xa2bfe8a1, 0xa81a664b, 0xc24b8b70, 0xc76c51a3, 0xd192e819, 0xd6990624, 0xf40e3585, 0x106aa070]
  const K_ROW6: seq<Word> :=
    [0x19a4c116, 0x1e376c08, 0x2748774c, 0x34b0bcb5, 0x391c0cb3, 0x4ed8aa4a, 0x5b9cca4f, 0x682e6ff3]
  const K_ROW7: seq<Word> :=
    [0x748f82ee, 0x78a5636f, 0x84c87814, 0x8cc70208, 0x90befffa, 0xa4506ceb, 0xbef9a3f7, 0xc67178f2]

  /** Row `r` of the table of constants. */
  function KRow(r: nat): (row: seq<Word>)
    requires r < 8
    ensures |row| == 8
  {
    match r
    case 0 => K_ROW0
    case 1 => K_ROW1
    case 2 => K_ROW2
    case 3 => K_ROW3
    case 4 => K_ROW4
    case 5 => K_ROW5
    case 6 => K_ROW6
    case 7 => K_ROW7
  }

  /** The constant of round `t`. */
  function K(t: nat): Word
    requires t < 64
  {
    KRow(t / 8)[t % 8]
  }

  /** The eight words of a hash value, or the working variables a..h. */
  datatype Regs = Regs(a: Word, b: Word, c: Word, d: Word, e: Word, f: Word, g: Word, h: Word)
  {
    function Words(): seq<Word> {
      [a, b, c, d, e, f, g, h]
    }
  }

  const H0 := Regs(0x6a09e667, 0xbb67ae85, 0x3c6ef372, 0xa54ff53a, 0x510e527f, 0x9b05688c, 0x1f83d9ab, 0x5be0cd19)

  // ---- section 5.2.1: parsing a block into sixteen words, most significant byte first

  type Block = b: seq<Byte> | |b| == 64 witness seq(64, _ => 0)

  function WordOf(b0: Byte, b1: Byte, b2: Byte, b3: Byte): Word {
    (b0 as Word) * 0x100_0000 + (b1 as Word) * 0x1_0000 + (b2 as Word) * 0x100 + (b3 as Word)
  }

  function BlockWord(block: Block, t: nat): Word
    requires t < 16
  {
    WordOf(block[4 * t], block[4 * t + 1], block[4 * t + 2], block[4 * t + 3])
  }

  // ---- section 6.2.2

  /** Step 1: the message schedule. */
  function Schedule(block: Block, t: nat): Word
    requires t < 64
  {
    if t < 16 then BlockWord(block, t)
    else Sum4(SmallSigma1(Schedule(block, t - 2)), Schedule(block, t - 7),
              SmallSigma0(Schedule(block, t - 15)), Schedule(block, t - 16))
  }

  /** Step 3 for one t. */
  function Round(r: Regs, k: Word, w: Word): Regs {
    var t1 := Sum5(r.h, BigSigma1(r.e), Ch(r.e, r.f, r.g), k, w);
    var t2 := Plus(BigSigma0(r.a), Maj(r.a, r.b, r.c));
    Regs(Plus(t1, t2), r.a, r.b, r.c, Plus(r.d, t1), r.e, r.f, r.g)
  }

  /** Steps 2 and 3 for all t below `n`. */
  function Rounds(h: Regs, block: Block, n: nat): Regs
    requires n <= 64
  {
    if n == 0 then h else Round(Rounds(h, block, n - 1), K(n - 1), Schedule(block, n - 1))
  }

  /** Step 4. */
  function Compress(h: Regs, block: Block): Regs {
    PlusRegs(Rounds(h, block, 64), h)
  }

  function PlusRegs(r: Regs, s: Regs): Regs {
    Regs(Plus(r.a, s.a), Plus(r.b, s.b), Plus(r.c, s.c), Plus(r.d, s.d),
         Plus(r.e, s.e), Plus(r.f, s.f), Plus(r.g, s.g), Plus(r.h, s.h))
  }

  function BlockAt(msg: seq<Byte>, i: nat): Block
    requires 64 * (i + 1) <= |msg|
  {
    msg[64 * i..64 * (i + 1)]
  }

  /** The hash value after the first `n` blocks. */
  function HashBlocks(msg: seq<Byte>, n: nat): Regs
    requires 64 * n <= |msg|
  {
    if n == 0 then H0 else Compress(HashBlocks(msg, n - 1), BlockAt(msg, n - 1))
  }

  // ---- section 5.1.1: padding

  const TWO_64 := 0x1_0000_0000_0000_0000

  /** `zeros` zero bits after the single one bit complete a message of `bits` bits up to the length field. */
  predicate SolvesPadding(bits: nat, zeros: nat) {
    (bits + 1 + zeros) % 512 == 448
  }

  /** The smallest solution. */
  ghost predicate IsZeroBits(bits: nat, zeros: nat) {
    SolvesPadding(bits, zeros) && forall k: nat :: k < zeros ==> !SolvesPadding(bits, k)
  }

  function Zeros(n: nat): (z: seq<Byte>)
    ensures |z| == n && forall i | 0 <= i < n :: z[i] == 0
  {
    seq(n, _ => 0)
  }

  /** Eight bytes read as a 64-bit number, most significant byte first. */
  function ReadLength(f: seq<Byte>): bv64
    requires |f| == 8
  {
    ((f[0] as bv64) << 56) | ((f[1] as bv64) << 48) | ((f[2] as bv64) << 40) | ((f[3] as bv64) << 32)
    | ((f[4] as bv64) << 24) | ((f[5] as bv64) << 16) | ((f[6] as bv64) << 8) | (f[7] as bv64)
  }

  /** The length of a message in bits, as a 64-bit number. */
  function BitLength(m: seq<Byte>): bv64 {
    (8 * |m| % TWO_64) as bv64
  }

  /** `p` is `m`, a one bit, the least number of zero bits (`8 * z + 7` of them), and the length of
      `m` in bits as a 64-bit number. */
  ghost predicate IsPadded(m: seq<Byte>, p: seq<Byte>, z: nat) {
    && IsZeroBits(8 * |m|, 8 * z + 7)
    && |p| == |m| + 1 + z + 8
    && p[..|m|] == m && p[|m|] == 0x80
    && p[|m| + 1..|m| + 1 + z] == Zeros(z)
    && ReadLength(p[|p| - 8..]) == BitLength(m)
  }

  // ---- section 6.2: the digest, as 64 lower-case hexadecimal digits

  /** The ASCII code of a digit: '0'..'9', then 'a'..'f'. */
  function HexDigit(n: bv4): Byte {
    if n < 10 then 0x30 + n as Byte else 0x57 + n as Byte
  }

  /** The eight nibbles of a word, most significant first. */
  function Nibbles(w: Word): (n: seq<bv4>)
    ensures |n| == 8
  {
    [((w >> 28) & 0xf) as bv4, ((w >> 24) & 0xf) as bv4, ((w >> 20) & 0xf) as bv4, ((w >> 16) & 0xf) as bv4,
     ((w >> 12) & 0xf) as bv4, ((w >> 8) & 0xf) as bv4, ((w >> 4) & 0xf) as bv4, (w & 0xf) as bv4]
  }

  /** `%08x`. */
  function HexWord(w: Word): (hex: seq<Byte>)
    ensures |hex| == 8
  {
    seq(8, i requires 0 <= i < 8 => HexDigit(Nibbles(w)[i]))
  }

  function HexWords(ws: seq<Word>): (hex: seq<Byte>)
    ensures |hex| == 8 * |ws|
  {
    if ws == [] then [] else HexWords(ws[..|ws| - 1]) + HexWord(ws[|ws| - 1])
  }

  /** The hash value of a padded message. */
  function HashOfPadded(p: seq<Byte>): Regs
    requires |p| % 64 == 0
  {
    HashBlocks(p, |p| / 64)
  }
}
