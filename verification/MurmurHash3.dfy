/**
  MurmurHash3_x86_32 (src/Core/MurmurHash3.cpp) on 32-bit words, blocks read little-endian.

  Every mixing step is a bijection of the word it mixes, so two inputs of the same length
  that differ within a single aligned group of four bytes never collide; two adjacent
  groups are enough for a collision.
*/
module MurmurHash3 {
  type Bytes = seq<bv8>

  // ------------------------------------------------------------------
  // Mixing steps, each beside the step that undoes it
  // ------------------------------------------------------------------

  function XorShift16(x: bv32): bv32 { x ^ (x >> 16) }
  function XorShift13(x: bv32): bv32 { x ^ (x >> 13) }
  function UnXorShift13(x: bv32): bv32 { x ^ (x >> 13) ^ (x >> 26) }

  function TimesF1(x: bv32): bv32 { x * 0x85ebca6b }
  function UnTimesF1(x: bv32): bv32 { x * 0xa5cb9243 }
  function TimesF2(x: bv32): bv32 { x * 0xc2b2ae35 }
  function UnTimesF2(x: bv32): bv32 { x * 0x7ed1b41d }
  function TimesC1(x: bv32): bv32 { x * 0xcc9e2d51 }
  function UnTimesC1(x: bv32): bv32 { x * 0xdee13bb1 }
  function TimesC2(x: bv32): bv32 { x * 0x1b873593 }
  function UnTimesC2(x: bv32): bv32 { x * 0x56ed309b }

  function Rotl15(x: bv32): bv32 { (x << 15) | (x >> 17) }
  function UnRotl15(x: bv32): bv32 { (x << 17) | (x >> 15) }
  function Rotl13(x: bv32): bv32 { (x << 13) | (x >> 19) }
  function UnRotl13(x: bv32): bv32 { (x << 19) | (x >> 13) }

  function Xor(x: bv32, y: bv32): bv32 { x ^ y }

  function Affine(x: bv32): bv32 { x * 5 + 0xe6546b64 }
  function UnAffine(x: bv32): bv32 { (x - 0xe6546b64) * 0xcccccccd }

  /** The finalisation mix. */
  function Fmix32(h: bv32): bv32 {
    XorShift16(TimesF2(XorShift13(TimesF1(XorShift16(h)))))
  }

  function UnFmix32(h: bv32): bv32 {
    XorShift16(UnTimesF1(UnXorShift13(UnTimesF2(XorShift16(h)))))
  }

  /** What a block is turned into before it is mixed in. */
  function MixK(k: bv32): bv32 {
    TimesC2(Rotl15(TimesC1(k)))
  }

  function UnMixK(k: bv32): bv32 {
    UnTimesC1(UnRotl15(UnTimesC2(k)))
  }

  /** One round of the body. */
  function MixH(h: bv32, k: bv32): bv32 {
    Affine(Rotl13(Xor(h, MixK(k))))
  }

  // Each first lemma states the step on the literal expression, each second one on the named step.
  lemma RawXorShift16(x: bv32) ensures XorShift16(x ^ (x >> 16)) == x {}
  lemma XorShift16Undone(x: bv32) ensures XorShift16(XorShift16(x)) == x { RawXorShift16(x); }
  lemma RawXorShift13(x: bv32) ensures UnXorShift13(x ^ (x >> 13)) == x {}
  lemma XorShift13Undone(x: bv32) ensures UnXorShift13(XorShift13(x)) == x { RawXorShift13(x); }
  lemma RawF1(x: bv32) ensures UnTimesF1(x * 0x85ebca6b) == x {}
  lemma F1Undone(x: bv32) ensures UnTimesF1(TimesF1(x)) == x { RawF1(x); }
  lemma RawF2(x: bv32) ensures UnTimesF2(x * 0xc2b2ae35) == x {}
  lemma F2Undone(x: bv32) ensures UnTimesF2(TimesF2(x)) == x { RawF2(x); }
  lemma RawC1(x: bv32) ensures UnTimesC1(x * 0xcc9e2d51) == x {}
  lemma C1Undone(x: bv32) ensures UnTimesC1(TimesC1(x)) == x { RawC1(x); }
  lemma RawC2(x: bv32) ensures UnTimesC2(x * 0x1b873593) == x {}
  lemma C2Undone(x: bv32) ensures UnTimesC2(TimesC2(x)) == x { RawC2(x); }
  lemma RawUnC1(x: bv32) ensures TimesC1(x * 0xdee13bb1) == x {}
  lemma UnC1Undone(x: bv32) ensures TimesC1(UnTimesC1(x)) == x { RawUnC1(x); }
  lemma RawUnC2(x: bv32) ensures TimesC2(x * 0x56ed309b) == x {}
  lemma UnC2Undone(x: bv32) ensures TimesC2(UnTimesC2(x)) == x { RawUnC2(x); }
  lemma RawRotl15(x: bv32) ensures UnRotl15((x << 15) | (x >> 17)) == x {}
  lemma Rotl15Undone(x: bv32) ensures UnRotl15(Rotl15(x)) == x { RawRotl15(x); }
  lemma RawUnRotl15(x: bv32) ensures Rotl15((x << 17) | (x >> 15)) == x {}
  lemma UnRotl15Undone(x: bv32) ensures Rotl15(UnRotl15(x)) == x { RawUnRotl15(x); }
  lemma RawRotl13(x: bv32) ensures UnRotl13((x << 13) | (x >> 19)) == x {}
  lemma Rotl13Undone(x: bv32) ensures UnRotl13(Rotl13(x)) == x { RawRotl13(x); }
  lemma RawAffine(x: bv32) ensures UnAffine(x * 5 + 0xe6546b64) == x {}
  lemma AffineUndone(x: bv32) ensures UnAffine(Affine(x)) == x { RawAffine(x); }

  /** The finalisation mix loses nothing. */
  lemma Fmix32Undone(h: bv32)
    ensures UnFmix32(Fmix32(h)) == h
  {
    var a := XorShift16(h);
    var b := XorShift13(TimesF1(a));
    XorShift16Undone(TimesF2(b));
    F2Undone(b);
    XorShift13Undone(TimesF1(a));
    F1Undone(a);
    XorShift16Undone(h);
  }

  lemma MixKUndone(k: bv32)
    ensures UnMixK(MixK(k)) == k && MixK(UnMixK(k)) == k
  {
    C2Undone(Rotl15(TimesC1(k)));
    Rotl15Undone(TimesC1(k));
    C1Undone(k);
    UnC1Undone(UnRotl15(UnTimesC2(k)));
    UnRotl15Undone(UnTimesC2(k));
    UnC2Undone(k);
  }

  lemma RawXor(a: bv32, c: bv32) ensures Xor(a ^ c, c) == a && Xor(c, c ^ a) == a {}
  lemma XorUndone(a: bv32, c: bv32) ensures Xor(Xor(a, c), c) == a && Xor(c, Xor(c, a)) == a { RawXor(a, c); }

  lemma Fmix32Injective(a: bv32, b: bv32)
    ensures Fmix32(a) == Fmix32(b) <==> a == b
  {
    Fmix32Undone(a);
    Fmix32Undone(b);
  }

  lemma MixKInjective(a: bv32, b: bv32)
    ensures MixK(a) == MixK(b) <==> a == b
  {
    MixKUndone(a);
    MixKUndone(b);
  }

  /** A round separates exactly the words its exclusive-or separates. */
  lemma RoundInjective(x: bv32, y: bv32)
    ensures Affine(Rotl13(x)) == Affine(Rotl13(y)) <==> x == y
  {
    AffineUndone(Rotl13(x));
    AffineUndone(Rotl13(y));
    Rotl13Undone(x);
    Rotl13Undone(y);
  }

  /** A round is injective in the running hash and in the block. */
  lemma MixHInjective(h: bv32, g: bv32, k: bv32, l: bv32)
    ensures MixH(h, k) == MixH(g, k) <==> h == g
    ensures MixH(h, k) == MixH(h, l) <==> k == l
  {
    var m, n := MixK(k), MixK(l);
    RoundInjective(Xor(h, m), Xor(g, m));
    RoundInjective(Xor(h, m), Xor(h, n));
    MixKInjective(k, l);
    XorUndone(h, m);
    XorUndone(g, m);
    XorUndone(m, h);
    XorUndone(n, h);
  }

  // ------------------------------------------------------------------
  // Bytes and words
  // ------------------------------------------------------------------

  function Word(b0: bv8, b1: bv8, b2: bv8, b3: bv8): bv32 {
    (b0 as bv32) | (b1 as bv32 << 8) | (b2 as bv32 << 16) | (b3 as bv32 << 24)
  }

  function Byte0(w: bv32): bv8 { (w & 0xFF) as bv8 }
  function Byte1(w: bv32): bv8 { ((w >> 8) & 0xFF) as bv8 }
  function Byte2(w: bv32): bv8 { ((w >> 16) & 0xFF) as bv8 }
  function Byte3(w: bv32): bv8 { ((w >> 24) & 0xFF) as bv8 }

  lemma BytesOfWord(b0: bv8, b1: bv8, b2: bv8, b3: bv8)
    ensures var w := Word(b0, b1, b2, b3); Byte0(w) == b0 && Byte1(w) == b1 && Byte2(w) == b2 && Byte3(w) == b3
  {
  }

  lemma WordOfBytes(w: bv32)
    ensures Word(Byte0(w), Byte1(w), Byte2(w), Byte3(w)) == w
  {
  }

  function BlockAt(data: Bytes, i: nat): bv32
    requires 4 * i + 4 <= |data|
  {
    Word(data[4 * i], data[4 * i + 1], data[4 * i + 2], data[4 * i + 3])
  }

  /** The one to three bytes after the last whole block, gathered into a word. */
  function TailWord(t: Bytes): bv32
    requires 1 <= |t| <= 3
  {
    var k3 := if |t| == 3 then 0 ^ (t[2] as bv32 << 16) else 0;
    var k2 := if |t| >= 2 then k3 ^ (t[1] as bv32 << 8) else k3;
    k2 ^ (t[0] as bv32)
  }

  lemma TailWordInjective(t: Bytes, u: Bytes)
    requires 1 <= |t| <= 3 && |t| == |u|
    ensures TailWord(t) == TailWord(u) <==> t == u
  {
    TailBytes(t);
    TailBytes(u);
  }

  lemma TailBytes(t: Bytes)
    requires 1 <= |t| <= 3
    ensures Byte0(TailWord(t)) == t[0]
    ensures |t| >= 2 ==> Byte1(TailWord(t)) == t[1]
    ensures |t| >= 3 ==> Byte2(TailWord(t)) == t[2]
  {
  }

  /** The length cut to 32 bits, byte by byte. */
  function LengthWord(n: nat): bv32 {
    Word(LowByte(n), LowByte(n / 0x100), LowByte(n / 0x1_0000), LowByte(n / 0x100_0000))
  }

  function Nibble(m: nat): bv8
    requires m < 16
  {
    (m as bv4) as bv8
  }

  /** The lowest byte of a number. */
  function LowByte(n: nat): bv8 {
    (Nibble(n / 16 % 16) << 4) | Nibble(n % 16)
  }

  // ------------------------------------------------------------------
  // The hash
  // ------------------------------------------------------------------

  /** The running hash after the first `n` blocks. */
  function Body(data: Bytes, n: nat, seed: bv32): bv32
    requires 4 * n <= |data|
  {
    if n == 0 then seed else MixH(Body(data, n - 1, seed), BlockAt(data, n - 1))
  }

  function WithTail(h: bv32, tail: Bytes): bv32
    requires |tail| < 4
  {
    if tail == [] then h else Xor(h, MixK(TailWord(tail)))
  }

  function Hash(data: Bytes, seed: bv32): bv32 {
    var n := |data| / 4;
    Fmix32(Xor(WithTail(Body(data, n, seed), data[4 * n..]), LengthWord(|data|)))
  }

  /** The code: a loop over the blocks, the fall-through switch over the tail, the finalisation. */
  method MurmurHash3_x86_32(key: Bytes, seed: bv32) returns (hash: bv32)
    requires |key| < 0x8000_0000
    ensures hash == Hash(key, seed)
  {
    var nblocks := |key| / 4;
    var h1 := seed;
    var i := -nblocks;
    while i != 0
      invariant -nblocks <= i <= 0
      invariant h1 == Body(key, nblocks + i, seed)
    {
      h1 := MixBlock(h1, BlockAt(key, nblocks + i));
      i := i + 1;
    }
    h1 := MixTail(h1, key[4 * nblocks..]);
    h1 := Xor(h1, LengthWord(|key|));
    hash := Fmix32(h1);
  }

  method MixBlock(h: bv32, block: bv32) returns (h1: bv32)
    ensures h1 == MixH(h, block)
  {
    var k1 := TimesC1(block);
    k1 := Rotl15(k1);
    k1 := TimesC2(k1);
    h1 := Xor(h, k1);
    h1 := Rotl13(h1);
    h1 := Affine(h1);
  }

  method MixTail(h: bv32, tail: Bytes) returns (h1: bv32)
    requires |tail| < 4
    ensures h1 == WithTail(h, tail)
  {
    h1 := h;
    var k1: bv32 := 0;
    if |tail| == 3 {
      k1 := k1 ^ (tail[2] as bv32 << 16);
    }
    if |tail| >= 2 {
      k1 := k1 ^ (tail[1] as bv32 << 8);
    }
    if |tail| >= 1 {
      k1 := k1 ^ (tail[0] as bv32);
      assert k1 == TailWord(tail);
      k1 := TimesC1(k1);
      k1 := Rotl15(k1);
      k1 := TimesC2(k1);
      h1 := Xor(h1, k1);
    }
  }

  // ------------------------------------------------------------------
  // Collisions
  // ------------------------------------------------------------------

  /** Two inputs of one length that agree everywhere outside one aligned group of four bytes. */
  ghost predicate AgreeOutside(d: Bytes, e: Bytes, g: nat) {
    |d| == |e| && forall i :: 0 <= i < |d| && !(4 * g <= i < 4 * g + 4) ==> d[i] == e[i]
  }

  lemma BlockInjective(d: Bytes, e: Bytes, i: nat)
    requires 4 * i + 4 <= |d| && |d| == |e|
    ensures BlockAt(d, i) == BlockAt(e, i) <==> d[4 * i..4 * i + 4] == e[4 * i..4 * i + 4]
  {
    BytesOfWord(d[4 * i], d[4 * i + 1], d[4 * i + 2], d[4 * i + 3]);
    BytesOfWord(e[4 * i], e[4 * i + 1], e[4 * i + 2], e[4 * i + 3]);
    var a, b := d[4 * i..4 * i + 4], e[4 * i..4 * i + 4];
    assert a == [d[4 * i], d[4 * i + 1], d[4 * i + 2], d[4 * i + 3]];
    assert b == [e[4 * i], e[4 * i + 1], e[4 * i + 2], e[4 * i + 3]];
    if a == b {
      assert a[0] == b[0] && a[1] == b[1] && a[2] == b[2] && a[3] == b[3];
    }
  }

  /** Blocks that agree keep two running hashes apart exactly when they were apart. */
  lemma {:induction false} BodyInjective(d: Bytes, e: Bytes, from: nat, n: nat, seed: bv32)
    requires |d| == |e| && from <= n && 4 * n <= |d|
    requires forall i :: 4 * from <= i < 4 * n ==> d[i] == e[i]
    ensures Body(d, n, seed) == Body(e, n, seed) <==> Body(d, from, seed) == Body(e, from, seed)
    decreases n
  {
    if n > from {
      BodyInjective(d, e, from, n - 1, seed);
      assert BlockAt(d, n - 1) == BlockAt(e, n - 1);
      MixHInjective(Body(d, n - 1, seed), Body(e, n - 1, seed), BlockAt(d, n - 1), BlockAt(d, n - 1));
    }
  }

  lemma {:induction false} BodySame(d: Bytes, e: Bytes, n: nat, seed: bv32)
    requires |d| == |e| && 4 * n <= |d| && forall i :: 0 <= i < 4 * n ==> d[i] == e[i]
    ensures Body(d, n, seed) == Body(e, n, seed)
  {
    if n > 0 {
      BodySame(d, e, n - 1, seed);
    }
  }

  lemma WithTailInjective(h: bv32, g: bv32, t: Bytes, u: Bytes)
    requires |t| == |u| < 4
    ensures t == u ==> (WithTail(h, t) == WithTail(g, u) <==> h == g)
    ensures h == g ==> (WithTail(h, t) == WithTail(g, u) <==> t == u)
  {
    if t != [] {
      var m, n := MixK(TailWord(t)), MixK(TailWord(u));
      TailWordInjective(t, u);
      MixKInjective(TailWord(t), TailWord(u));
      XorUndone(h, m);
      XorUndone(g, m);
      XorUndone(m, h);
      XorUndone(n, h);
    }
  }

  lemma FinalInjective(a: bv32, b: bv32, len: bv32)
    ensures Fmix32(Xor(a, len)) == Fmix32(Xor(b, len)) <==> a == b
  {
    Fmix32Injective(Xor(a, len), Xor(b, len));
    XorUndone(a, len);
    XorUndone(b, len);
  }

  lemma BodyPastGroup(d: Bytes, e: Bytes, g: nat, seed: bv32)
    requires AgreeOutside(d, e, g) && 4 * g + 4 <= |d|
    ensures Body(d, g + 1, seed) == Body(e, g + 1, seed) <==> BlockAt(d, g) == BlockAt(e, g)
  {
    BodySame(d, e, g, seed);
    var h := Body(d, g, seed);
    MixHInjective(h, h, BlockAt(d, g), BlockAt(e, g));
  }

  /** One block changed: the running hash after all blocks changes exactly when the block does. */
  lemma BodyOfOneBlock(d: Bytes, e: Bytes, g: nat, seed: bv32)
    requires AgreeOutside(d, e, g) && g < |d| / 4
    ensures Body(d, |d| / 4, seed) == Body(e, |e| / 4, seed) <==> d == e
  {
    BodyInjective(d, e, g + 1, |d| / 4, seed);
    BodyPastGroup(d, e, g, seed);
    BlockInjective(d, e, g);
    SameOutsideAndInside(d, e, g);
  }

  lemma SameOutsideAndInside(d: Bytes, e: Bytes, g: nat)
    requires AgreeOutside(d, e, g) && 4 * g + 4 <= |d|
    ensures d[4 * g..4 * g + 4] == e[4 * g..4 * g + 4] <==> d == e
  {
    var lo, hi := 4 * g, 4 * g + 4;
    assert d == d[..lo] + d[lo..hi] + d[hi..] && e == e[..lo] + e[lo..hi] + e[hi..];
    assert d[..lo] == e[..lo] && d[hi..] == e[hi..];
  }

  /** Inputs of one length that differ within a single block, or only in the tail, never collide. */
  lemma OneGroupNeverCollides(d: Bytes, e: Bytes, g: nat, seed: bv32)
    requires AgreeOutside(d, e, g)
    ensures Hash(d, seed) == Hash(e, seed) <==> d == e
  {
    var n := |d| / 4;
    var t, u, h, f := d[4 * n..], e[4 * n..], Body(d, n, seed), Body(e, n, seed);
    FinalInjective(WithTail(h, t), WithTail(f, u), LengthWord(|d|));
    WithTailInjective(h, f, t, u);
    if g < n {
      BodyOfOneBlock(d, e, g, seed);
      assert t == u;
    } else {
      BodySame(d, e, n, seed);
      assert d == d[..4 * n] + t && e == e[..4 * n] + u;
      assert d[..4 * n] == e[..4 * n];
    }
  }

  /** Two groups are enough: any input of two or more blocks collides with one that differs in its first two only. */
  lemma TwoGroupsCollide(d: Bytes, seed: bv32) returns (e: Bytes)
    requires |d| >= 8
    ensures e != d && |e| == |d| && e[8..] == d[8..]
    ensures Hash(e, seed) == Hash(d, seed)
  {
    var k0, k1 := BlockAt(d, 0), BlockAt(d, 1);
    var k0' := if k0 == 0 then 1 else 0;
    var h, g := MixH(seed, k0), MixH(seed, k0');
    // the second block that brings the two running hashes together again
    var k1' := UnMixK(Xor(g, Xor(h, MixK(k1))));
    MixKRight(Xor(g, Xor(h, MixK(k1))));
    XorUndone(Xor(h, MixK(k1)), g);
    e := [Byte0(k0'), Byte1(k0'), Byte2(k0'), Byte3(k0'), Byte0(k1'), Byte1(k1'), Byte2(k1'), Byte3(k1')] + d[8..];
    WordOfBytes(k0');
    WordOfBytes(k1');
    assert BlockAt(e, 0) == k0' && BlockAt(e, 1) == k1';
    BodyOfTwo(d, seed);
    BodyOfTwo(e, seed);
    BodyInjective(d, e, 2, |d| / 4, seed);
    assert d[4 * (|d| / 4)..] == e[4 * (|d| / 4)..];
  }

  lemma BodyOfTwo(d: Bytes, seed: bv32)
    requires |d| >= 8
    ensures Body(d, 2, seed) == MixH(MixH(seed, BlockAt(d, 0)), BlockAt(d, 1))
  {
    assert Body(d, 1, seed) == MixH(Body(d, 0, seed), BlockAt(d, 0));
  }

  lemma MixKRight(m: bv32)
    ensures MixK(UnMixK(m)) == m
  {
    MixKUndone(m);
  }

  // ------------------------------------------------------------------
  // The length, and known values
  // ------------------------------------------------------------------

  lemma NibbleAsInt(m: nat)
    requires m < 16
    ensures (m as bv4) as int == m
  {
  }

  lemma NibblesApart(m: nat, n: nat)
    requires m < 16 && n < 16
    ensures Nibble(m) <= 0xF && (Nibble(m) == Nibble(n) <==> m == n)
  {
    NibbleAsInt(m);
    NibbleAsInt(n);
    Widened(m as bv4, n as bv4);
  }

  lemma Widened(a: bv4, b: bv4)
    ensures a as bv8 <= 0xF && (a as bv8 == b as bv8 <==> a == b)
  {
  }

  lemma JoinedApart(a: bv8, b: bv8, c: bv8, d: bv8)
    requires a <= 0xF && b <= 0xF && c <= 0xF && d <= 0xF
    ensures ((a << 4) | b) == ((c << 4) | d) <==> a == c && b == d
  {
  }

  lemma TwoDigits(n: nat)
    ensures n % 256 == 16 * (n / 16 % 16) + n % 16
  {
  }

  lemma LowBytesApart(m: nat, n: nat)
    ensures LowByte(m) == LowByte(n) <==> m % 256 == n % 256
  {
    TwoDigits(m);
    TwoDigits(n);
    var a, b, c, d := m / 16 % 16, m % 16, n / 16 % 16, n % 16;
    NibblesApart(a, c);
    NibblesApart(b, d);
    NibblesApart(c, a);
    NibblesApart(d, b);
    JoinedApart(Nibble(a), Nibble(b), Nibble(c), Nibble(d));
  }

  lemma FourDigits(n: nat)
    requires n < 0x1_0000_0000
    ensures n == n % 256 + 0x100 * (n / 0x100 % 256) + 0x1_0000 * (n / 0x1_0000 % 256)
                 + 0x100_0000 * (n / 0x100_0000 % 256)
  {
    var q1 := n / 0x100;
    var q2 := q1 / 0x100;
    var q3 := q2 / 0x100;
    assert n / 0x1_0000 == q2 && n / 0x100_0000 == q3;
  }

  /** Below 2^32 the length word tells lengths apart. */
  lemma LengthsApart(m: nat, n: nat)
    requires m < 0x1_0000_0000 && n < 0x1_0000_0000
    ensures LengthWord(m) == LengthWord(n) <==> m == n
  {
    BytesOfWord(LowByte(m), LowByte(m / 0x100), LowByte(m / 0x1_0000), LowByte(m / 0x100_0000));
    BytesOfWord(LowByte(n), LowByte(n / 0x100), LowByte(n / 0x1_0000), LowByte(n / 0x100_0000));
    LowBytesApart(m, n);
    LowBytesApart(m / 0x100, n / 0x100);
    LowBytesApart(m / 0x1_0000, n / 0x1_0000);
    LowBytesApart(m / 0x100_0000, n / 0x100_0000);
    FourDigits(m);
    FourDigits(n);
  }

  /** Two inputs that leave the same running hash have the same hash exactly if their lengths are equal. */
  lemma LengthDecides(h: bv32, m: nat, n: nat)
    requires m < 0x1_0000_0000 && n < 0x1_0000_0000
    ensures Fmix32(Xor(h, LengthWord(m))) == Fmix32(Xor(h, LengthWord(n))) <==> m == n
  {
    LengthsApart(m, n);
    XorUndone(LengthWord(m), h);
    XorUndone(LengthWord(n), h);
    XorSwaps(h, LengthWord(m));
    XorSwaps(h, LengthWord(n));
    Fmix32Injective(Xor(h, LengthWord(m)), Xor(h, LengthWord(n)));
  }

  lemma XorSwaps(a: bv32, b: bv32)
    ensures Xor(a, b) == Xor(b, a)
  {
  }

  /** The length is part of the hash: a zero byte after whole blocks mixes in nothing and yet changes the hash. */
  lemma ZeroByteChangesHash(d: Bytes, seed: bv32)
    requires |d| % 4 == 0 && |d| + 1 < 0x8000_0000
    ensures Hash(d + [0], seed) != Hash(d, seed)
  {
    var e, n := d + [0], |d| / 4;
    var h := Body(d, n, seed);
    assert |e| / 4 == n;
    BodyOfPrefix(d, [0], n, seed);
    assert d[4 * n..] == [] && e[4 * n..] == [0];
    ZeroTail(h);
    LengthDecides(h, |d|, |e|);
  }

  lemma {:induction false} BodyOfPrefix(d: Bytes, more: Bytes, n: nat, seed: bv32)
    requires 4 * n <= |d|
    ensures Body(d + more, n, seed) == Body(d, n, seed)
  {
    if n > 0 {
      BodyOfPrefix(d, more, n - 1, seed);
    }
  }

  lemma ZeroTail(h: bv32)
    ensures WithTail(h, [0]) == h
  {
    var k := TailWord([0]);
    assert k == 0;
    assert TimesC1(k) == 0 && Rotl15(0) == 0 && TimesC2(0) == 0;
    RawXor(h, 0);
  }

  lemma XorNothing(x: bv32)
    ensures Xor(x, 0) == x
  {
  }

  lemma ShortLengths()
    ensures LengthWord(0) == 0 && LengthWord(1) == 1 && LengthWord(3) == 3 && LengthWord(4) == 4
    ensures LengthWord(0x403_0201) == 0x403_0201
  {
  }

  /** Known values of the hash: no input, one byte, a tail of three, and one block under two seeds. */
  lemma HashOfNothing(seed: bv32)
    ensures Hash([], seed) == Fmix32(seed)
    ensures Hash([], 0) == 0 && Hash([], 1) == 0x514e28b7 && Hash([], 0xffffffff) == 0x81f16f39
  {
    ShortLengths();
    XorNothing(seed);
    FmixKnown();
  }

  lemma FmixKnown()
    ensures Fmix32(0) == 0 && Fmix32(1) == 0x514e28b7 && Fmix32(0xffffffff) == 0x81f16f39
    ensures Xor(0, 0) == 0 && Xor(1, 0) == 1 && Xor(0xffffffff, 0) == 0xffffffff
  {
  }

  /** One block under two seeds. */
  lemma HashOfFourBytes()
    ensures Hash([0x21, 0x43, 0x65, 0x87], 0) == 0xf55b516b
    ensures Hash([0x21, 0x43, 0x65, 0x87], 0x5082edee) == 0x2362f9de
  {
    ShortLengths();
    var t: Bytes := [0x21, 0x43, 0x65, 0x87];
    assert t[4..] == [];
    BlockOfFour(t);
    assert Body(t, 1, 0) == MixH(0, BlockAt(t, 0)) && Body(t, 1, 0x5082edee) == MixH(0x5082edee, BlockAt(t, 0));
    MixedFour();
  }

  lemma BlockOfFour(t: Bytes)
    requires t == [0x21, 0x43, 0x65, 0x87]
    ensures BlockAt(t, 0) == 0x87654321
  {
    assert Word(0x21, 0x43, 0x65, 0x87) == 0x87654321;
  }

  lemma MixedFour()
    ensures Fmix32(Xor(MixH(0, 0x87654321), 4)) == 0xf55b516b
    ensures Fmix32(Xor(MixH(0x5082edee, 0x87654321), 4)) == 0x2362f9de
  {
  }

  /** Tails of one and of three bytes. */
  lemma HashOfTails()
    ensures Hash([0x21], 0) == 0x72661cf4
    ensures Hash([0x21, 0x43, 0x65], 0) == 0x7e4a8634
  {
    ShortLengths();
    var t: Bytes, u: Bytes := [0x21], [0x21, 0x43, 0x65];
    assert t[0..] == t && u[0..] == u;
    assert TailWord(t) == 0x21 && TailWord(u) == 0x654321;
    MixedTails();
  }

  lemma MixedTails()
    ensures Fmix32(Xor(Xor(0, MixK(0x21)), 1)) == 0x72661cf4
    ensures Fmix32(Xor(Xor(0, MixK(0x654321)), 3)) == 0x7e4a8634
  {
  }
}
