/** The hash of src/hash.cpp: block compression in place, padding, hexadecimal digest. */
module Sha256 {
  import opened Sha256Spec

  /** The sigma functions with `rotr(x, n)` written as the source does, `(x >> n) | (x << (32 - n))`. */
  lemma SigmasByShifts(x: Word)
    ensures SmallSigma0(x) == ((x >> 7) | (x << 25)) ^ ((x >> 18) | (x << 14)) ^ (x >> 3)
    ensures SmallSigma1(x) == ((x >> 17) | (x << 15)) ^ ((x >> 19) | (x << 13)) ^ (x >> 10)
    ensures BigSigma0(x) == ((x >> 2) | (x << 30)) ^ ((x >> 13) | (x << 19)) ^ ((x >> 22) | (x << 10))
    ensures BigSigma1(x) == ((x >> 6) | (x << 26)) ^ ((x >> 11) | (x << 21)) ^ ((x >> 25) | (x << 7))
  {
  }

  /** `Ch` takes each bit from `y` where `x` has a one, and from `z` where it has a zero. */
  lemma ChoiceOfOnes(x: Word, y: Word, z: Word)
    ensures Ch(x, y, z) & x == y & x
  {
  }

  lemma ChoiceOfZeros(x: Word, y: Word, z: Word)
    ensures Ch(x, y, z) & !x == z & !x
  {
  }

  /** Each bit of `Maj` is the one that at least two of the words have. */
  lemma MajorityOfBits(x: Word, y: Word, z: Word)
    ensures Maj(x, y, z) == (x & y) | (x & z) | (y & z)
  {
  }

  lemma SumIgnoresOrder(x: Word, y: Word, z: Word, u: Word)
    ensures Sum4(x, y, z, u) == Sum4(u, z, y, x)
  {
  }

  function Glue(b0: Byte, b1: Byte, b2: Byte, b3: Byte): Word {
    ((b0 as Word) << 24) | ((b1 as Word) << 16) | ((b2 as Word) << 8) | (b3 as Word)
  }

  lemma GlueIsBigEndian(b0: Byte, b1: Byte, b2: Byte, b3: Byte)
    ensures Glue(b0, b1, b2, b3) == WordOf(b0, b1, b2, b3)
  {
  }

  /** The first loop of `sha256_block`: sixteen big-endian words. */
  method LoadBlock(msg: seq<Byte>, off: nat, w: array<Word>)
    requires off + 64 <= |msg| && w.Length == 64
    modifies w
    ensures forall t | 0 <= t < 16 :: w[t] == BlockWord(msg[off..off + 64], t)
  {
    ghost var block: Block := msg[off..off + 64];
    for i := 0 to 16
      invariant forall t | 0 <= t < i :: w[t] == BlockWord(block, t)
    {
      GlueIsBigEndian(block[4 * i], block[4 * i + 1], block[4 * i + 2], block[4 * i + 3]);
      w[i] := Glue(msg[off + 4 * i], msg[off + 4 * i + 1], msg[off + 4 * i + 2], msg[off + 4 * i + 3]);
    }
  }

  /** The next word of the schedule from the four earlier ones, summed in the order of the loop. */
  method NextWord(w16: Word, w15: Word, w7: Word, w2: Word) returns (next: Word)
    ensures next == Sum4(SmallSigma1(w2), w7, SmallSigma0(w15), w16)
  {
    var s0 := SmallSigma0(w15);
    var s1 := SmallSigma1(w2);
    SumIgnoresOrder(w16, s0, w7, s1);
    next := Sum4(w16, s0, w7, s1);
  }

  /** The second loop of `sha256_block`: the remaining words of the schedule, in place. */
  method ExpandSchedule(w: array<Word>, ghost block: Block)
    requires w.Length == 64 && forall t | 0 <= t < 16 :: w[t] == BlockWord(block, t)
    modifies w
    ensures forall t | 0 <= t < 64 :: w[t] == Schedule(block, t)
  {
    for i := 16 to 64
      invariant forall t | 0 <= t < i :: w[t] == Schedule(block, t)
    {
      var next := NextWord(w[i - 16], w[i - 15], w[i - 7], w[i - 2]);
      assert next == Schedule(block, i);
      w[i] := next;
    }
  }

  /** The 64 rounds, on eight rotating variables. */
  method RunRounds(h: array<Word>, w: array<Word>, ghost block: Block) returns (r: Regs)
    requires h.Length == 8 && w.Length == 64
    requires forall t | 0 <= t < 64 :: w[t] == Schedule(block, t)
    ensures r == Rounds(Regs(h[0], h[1], h[2], h[3], h[4], h[5], h[6], h[7]), block, 64)
  {
    ghost var start := Regs(h[0], h[1], h[2], h[3], h[4], h[5], h[6], h[7]);
    var a, b, c, d := h[0], h[1], h[2], h[3];
    var e, f, g, hh := h[4], h[5], h[6], h[7];
    for i := 0 to 64
      invariant Regs(a, b, c, d, e, f, g, hh) == Rounds(start, block, i)
    {
      var s1 := BigSigma1(e);
      var ch := Ch(e, f, g);
      var t1 := Sum5(hh, s1, ch, K(i), w[i]);
      var s0 := BigSigma0(a);
      var maj := Maj(a, b, c);
      var t2 := Plus(s0, maj);
      hh := g;
      g := f;
      f := e;
      e := Plus(d, t1);
      d := c;
      c := b;
      b := a;
      a := Plus(t1, t2);
    }
    r := Regs(a, b, c, d, e, f, g, hh);
  }

  function RegsOf(h: seq<Word>): Regs
    requires |h| == 8
  {
    Regs(h[0], h[1], h[2], h[3], h[4], h[5], h[6], h[7])
  }

  lemma PlusCommutes(x: Word, y: Word)
    ensures Plus(x, y) == Plus(y, x)
  {
  }

  lemma PlusRegsCommutes(r: Regs, s: Regs)
    ensures PlusRegs(r, s) == PlusRegs(s, r)
  {
    PlusCommutes(r.a, s.a);
    PlusCommutes(r.b, s.b);
    PlusCommutes(r.c, s.c);
    PlusCommutes(r.d, s.d);
    PlusCommutes(r.e, s.e);
    PlusCommutes(r.f, s.f);
    PlusCommutes(r.g, s.g);
    PlusCommutes(r.h, s.h);
  }

  /** The eight `+=` at the end of `sha256_block`. */
  method AddInto(h: array<Word>, r: Regs)
    requires h.Length == 8
    modifies h
    ensures RegsOf(h[..]) == PlusRegs(RegsOf(old(h[..])), r)
  {
    h[0] := Plus(h[0], r.a);
    h[1] := Plus(h[1], r.b);
    h[2] := Plus(h[2], r.c);
    h[3] := Plus(h[3], r.d);
    h[4] := Plus(h[4], r.e);
    h[5] := Plus(h[5], r.f);
    h[6] := Plus(h[6], r.g);
    h[7] := Plus(h[7], r.h);
  }

  /** `sha256_block`: fold the block at `off` into the hash value `h`. */
  method Sha256Block(h: array<Word>, msg: seq<Byte>, off: nat)
    requires h.Length == 8 && off + 64 <= |msg|
    modifies h
    ensures RegsOf(h[..]) == Compress(RegsOf(old(h[..])), msg[off..off + 64])
  {
    var w := new Word[64];
    LoadBlock(msg, off, w);
    ExpandSchedule(w, msg[off..off + 64]);
    var r := RunRounds(h, w, msg[off..off + 64]);
    PlusRegsCommutes(r, RegsOf(h[..]));
    AddInto(h, r);
  }

  // ---- padding

  function ZeroBytes(n: nat): nat {
    (55 - n) % 64
  }

  lemma ZeroBytesAlign(n: nat)
    ensures (n + 1 + ZeroBytes(n)) % 64 == 56 && (n + 1 + ZeroBytes(n) + 8) % 64 == 0
  {
    var k := (55 - n) / 64;
    assert n + 1 + ZeroBytes(n) == 64 * (-k) + 56;
  }

  /** Byte `i` of a number, counted from the least significant: `(x >> (8 * i)) & 0xff`. */
  function ByteAt(x: bv64, i: nat): Byte
    requires i < 8
  {
    match i
    case 7 => ((x >> 56) & 0xff) as Byte
    case 6 => ((x >> 48) & 0xff) as Byte
    case 5 => ((x >> 40) & 0xff) as Byte
    case 4 => ((x >> 32) & 0xff) as Byte
    case 3 => ((x >> 24) & 0xff) as Byte
    case 2 => ((x >> 16) & 0xff) as Byte
    case 1 => ((x >> 8) & 0xff) as Byte
    case 0 => (x & 0xff) as Byte
  }

  function LengthBytes(x: bv64): (f: seq<Byte>)
    ensures |f| == 8
  {
    seq(8, i requires 0 <= i < 8 => ByteAt(x, 7 - i))
  }

  function Pad(m: seq<Byte>): (p: seq<Byte>) {
    m + [0x80] + Zeros(ZeroBytes(|m|)) + LengthBytes(BitLength(m))
  }

  lemma PadAligns(m: seq<Byte>)
    ensures |Pad(m)| % 64 == 0
  {
    ZeroBytesAlign(|m|);
    assert |Pad(m)| == |m| + 1 + ZeroBytes(|m|) + 8;
  }

  method AppendZeros(data: seq<Byte>) returns (msg: seq<Byte>)
    ensures msg == data + [0x80] + Zeros(ZeroBytes(|data|))
  {
    msg := data + [0x80];
    ghost var n := 0;
    while |msg| % 64 != 56
      invariant msg == data + [0x80] + Zeros(n) && n <= ZeroBytes(|data|)
      decreases ZeroBytes(|data|) - n
    {
      msg := msg + [0];
      n := n + 1;
      assert Zeros(n) == Zeros(n - 1) + [0];
    }
  }

  method AppendLength(body: seq<Byte>, bitLen: bv64) returns (msg: seq<Byte>)
    ensures msg == body + LengthBytes(bitLen)
  {
    msg := body;
    for i := 8 downto 0
      invariant msg == body + LengthBytes(bitLen)[..8 - i]
    {
      msg := msg + [ByteAt(bitLen, i)];
    }
  }

  /** The padding part of `sha256_hex`; the length is an unsigned 64-bit number. */
  method PadMessage(data: seq<Byte>) returns (msg: seq<Byte>)
    ensures msg == Pad(data)
  {
    var bitLen := (8 * |data| % TWO_64) as bv64;
    msg := AppendZeros(data);
    msg := AppendLength(msg, bitLen);
  }

  lemma NotAligned(x: int, q: int)
    requires 512 * q + 448 < x < 512 * (q + 1) + 448
    ensures x % 512 != 448
  {
    assert x == 512 * (x / 512) + x % 512;
  }

  lemma LeastZeroBits(n: nat)
    ensures IsZeroBits(8 * n, 8 * ZeroBytes(n) + 7)
  {
    var z := ZeroBytes(n);
    var k := (55 - n) / 64;
    assert 8 * n + 1 + (8 * z + 7) == 512 * (-k) + 448;
    forall b: nat | b < 8 * z + 7
      ensures !SolvesPadding(8 * n, b)
    {
      NotAligned(8 * n + 1 + b, -k - 1);
    }
  }

  lemma ReadOfBytes(x: bv64)
    ensures ReadLength(LengthBytes(x)) == x
  {
    BytesRebuild(x);
  }

  lemma BytesRebuild(x: bv64)
    ensures x == ((((x >> 56) & 0xff) as Byte as bv64) << 56) | ((((x >> 48) & 0xff) as Byte as bv64) << 48)
              | ((((x >> 40) & 0xff) as Byte as bv64) << 40) | ((((x >> 32) & 0xff) as Byte as bv64) << 32)
              | ((((x >> 24) & 0xff) as Byte as bv64) << 24) | ((((x >> 16) & 0xff) as Byte as bv64) << 16)
              | ((((x >> 8) & 0xff) as Byte as bv64) << 8) | ((x & 0xff) as Byte as bv64)
  {
  }

  /** The padding is the one FIPS 180-4 prescribes, with the least number of zero bits. */
  lemma PadIsPadding(m: seq<Byte>)
    ensures IsPadded(m, Pad(m), ZeroBytes(|m|))
  {
    var p := Pad(m);
    var z := ZeroBytes(|m|);
    LeastZeroBits(|m|);
    ReadOfBytes(BitLength(m));
    assert p[|p| - 8..] == LengthBytes(BitLength(m));
    assert p[|m| + 1..|m| + 1 + z] == Zeros(z);
    assert p[..|m|] == m;
  }

  /** Drop the zero bytes at the end, and the marker before them. */
  function StripMarker(p: seq<Byte>): seq<Byte> {
    if p == [] then []
    else if p[|p| - 1] == 0 then StripMarker(p[..|p| - 1])
    else p[..|p| - 1]
  }

  /** The message of a padded text: drop the length field, then the one bit and the zeros after it. */
  function Unpad(p: seq<Byte>): seq<Byte>
    requires |p| >= 8
  {
    StripMarker(p[..|p| - 8])
  }

  lemma {:induction false} StripUndoesMarker(m: seq<Byte>, z: nat)
    ensures StripMarker(m + [0x80] + Zeros(z)) == m
  {
    var p := m + [0x80] + Zeros(z);
    if z == 0 {
      assert p == m + [0x80];
      assert p[..|p| - 1] == m;
    } else {
      assert p[|p| - 1] == Zeros(z)[z - 1];
      assert p[..|p| - 1] == m + [0x80] + Zeros(z - 1);
      StripUndoesMarker(m, z - 1);
    }
  }

  /** Padding loses nothing, whatever the length of the message. */
  lemma UnpadInvertsPad(m: seq<Byte>)
    ensures Unpad(Pad(m)) == m
  {
    StripUndoesMarker(m, ZeroBytes(|m|));
    assert Pad(m)[..|Pad(m)| - 8] == m + [0x80] + Zeros(ZeroBytes(|m|));
  }

  lemma PadIsInjective(m1: seq<Byte>, m2: seq<Byte>)
    requires Pad(m1) == Pad(m2)
    ensures m1 == m2
  {
    UnpadInvertsPad(m1);
    UnpadInvertsPad(m2);
  }

  // ---- the digest

  function HashOf(m: seq<Byte>): Regs {
    PadAligns(m);
    HashOfPadded(Pad(m))
  }

  function Digest(m: seq<Byte>): (hex: seq<Byte>)
    ensures |hex| == 64
  {
    HexWords(HashOf(m).Words())
  }

  /** The block loop of `sha256_hex`. */
  method HashMessage(msg: seq<Byte>, h: array<Word>)
    requires |msg| % 64 == 0 && h.Length == 8 && RegsOf(h[..]) == H0
    modifies h
    ensures RegsOf(h[..]) == HashOfPadded(msg)
  {
    var off := 0;
    while off < |msg|
      invariant off % 64 == 0 && off <= |msg|
      invariant RegsOf(h[..]) == HashBlocks(msg, off / 64)
    {
      assert msg[off..off + 64] == BlockAt(msg, off / 64);
      Sha256Block(h, msg, off);
      off := off + 64;
    }
  }

  /** The rendering loop of `sha256_hex`. */
  method RenderHex(h: array<Word>) returns (hex: seq<Byte>)
    requires h.Length == 8
    ensures hex == HexWords(h[..])
  {
    hex := [];
    for i := 0 to 8
      invariant hex == HexWords(h[..i])
    {
      assert h[..i + 1][..i] == h[..i];
      hex := hex + HexWord(h[i]);
    }
    assert h[..8] == h[..];
  }

  /** `sha256_hex`. */
  method Sha256Hex(data: seq<Byte>) returns (hex: seq<Byte>)
    ensures hex == Digest(data)
  {
    var h := new Word[8] [0x6a09e667, 0xbb67ae85, 0x3c6ef372, 0xa54ff53a,
                          0x510e527f, 0x9b05688c, 0x1f83d9ab, 0x5be0cd19];
    assert RegsOf(h[..]) == H0;
    var msg := PadMessage(data);
    PadAligns(data);
    HashMessage(msg, h);
    WordsOfRegs(h[..]);
    hex := RenderHex(h);
  }

  lemma WordsOfRegs(ws: seq<Word>)
    requires |ws| == 8
    ensures RegsOf(ws).Words() == ws
  {
  }

  lemma HexDigitIsInjective(n: bv4, m: bv4)
    requires HexDigit(n) == HexDigit(m)
    ensures n == m
  {
  }

  lemma NibblesDetermineWord(w: Word, u: Word)
    requires Nibbles(w) == Nibbles(u)
    ensures w == u
  {
    var a, b := Nibbles(w), Nibbles(u);
    assert a[0] == b[0] && a[1] == b[1] && a[2] == b[2] && a[3] == b[3];
    assert a[4] == b[4] && a[5] == b[5] && a[6] == b[6] && a[7] == b[7];
  }

  lemma HexWordIsInjective(w: Word, u: Word)
    requires HexWord(w) == HexWord(u)
    ensures w == u
  {
    forall i | 0 <= i < 8
      ensures Nibbles(w)[i] == Nibbles(u)[i]
    {
      assert HexWord(w)[i] == HexWord(u)[i];
      HexDigitIsInjective(Nibbles(w)[i], Nibbles(u)[i]);
    }
    NibblesDetermineWord(w, u);
  }

  lemma {:induction false} HexWordsAreInjective(ws: seq<Word>, us: seq<Word>)
    requires |ws| == |us| && HexWords(ws) == HexWords(us)
    ensures ws == us
  {
    if ws != [] {
      var n := |ws| - 1;
      var a, b := HexWords(ws), HexWords(us);
      assert a[..8 * n] == HexWords(ws[..n]) && b[..8 * n] == HexWords(us[..n]);
      assert a[8 * n..] == HexWord(ws[n]) && b[8 * n..] == HexWord(us[n]);
      HexWordsAreInjective(ws[..n], us[..n]);
      HexWordIsInjective(ws[n], us[n]);
    }
  }

  /** Two digest texts are equal exactly when the hash values are. */
  lemma DigestsEqualIffHashesEqual(m1: seq<Byte>, m2: seq<Byte>)
    ensures Digest(m1) == Digest(m2) <==> HashOf(m1) == HashOf(m2)
  {
    var r, s := HashOf(m1), HashOf(m2);
    if Digest(m1) == Digest(m2) {
      HexWordsAreInjective(r.Words(), s.Words());
      assert RegsOf(r.Words()) == r && RegsOf(s.Words()) == s;
    }
  }
}
