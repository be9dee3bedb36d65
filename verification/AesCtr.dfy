/**
 AES-CTR decryption with random access: the seek of the counter, the keystream
 and the laws of decrypting parts of a stream. The block cipher is any function
 of a counter block that may fail.
 */
module AesCtr {
  import opened Arithmetic
  import opened Common

  type Counter = c: seq<Byte> | |c| == 16 witness seq(16, i => 0)
  type Keystream = k: seq<bv8> | |k| == 16 witness seq(16, i => 0)

  /** The cipher under a fixed key. */
  type Cipher = Counter -> Option<Keystream>

  // ── Counters as numbers ────────────────────────────────────────────────

  function Power(n: nat): (p: nat)
    ensures p > 0
  {
    if n == 0 then 1 else 0x100 * Power(n - 1)
  }

  /** The big-endian value of a counter. */
  function Value(c: seq<Byte>): (v: nat)
    ensures v < Power(|c|)
  {
    if c == [] then 0 else 0x100 * Value(c[..|c| - 1]) + c[|c| - 1]
  }

  lemma {:induction false} ValueInjective(a: seq<Byte>, b: seq<Byte>)
    requires |a| == |b| && Value(a) == Value(b)
    ensures a == b
  {
    if a != [] {
      var n := |a| - 1;
      assert a[n] == b[n] && Value(a[..n]) == Value(b[..n]);
      ValueInjective(a[..n], b[..n]);
      assert a == a[..n] + [a[n]] && b == b[..n] + [b[n]];
    }
  }

  /** The increment: the last byte that is not 255 goes up, the bytes after it become zero. */
  function Incremented(c: seq<Byte>): (r: seq<Byte>)
    ensures |r| == |c|
  {
    if c == [] then []
    else if c[|c| - 1] == 255 then Incremented(c[..|c| - 1]) + [0]
    else c[..|c| - 1] + [c[|c| - 1] + 1]
  }

  lemma {:induction false} IncrementAdds(c: seq<Byte>)
    ensures Value(Incremented(c)) == if Value(c) + 1 == Power(|c|) then 0 else Value(c) + 1
  {
    if c != [] {
      var n := |c| - 1;
      var r := Incremented(c);
      IncrementAdds(c[..n]);
      if c[n] == 255 {
        assert r[..n] == Incremented(c[..n]) && r[n] == 0;
      } else {
        assert r[..n] == c[..n] && r[n] == c[n] + 1;
      }
    }
  }

  /** The counter n blocks further on. */
  function Plus(c: Counter, n: nat): Counter {
    if n == 0 then c else Incremented(Plus(c, n - 1))
  }

  lemma {:induction false} PlusAdds(c: Counter, n: nat)
    ensures Value(Plus(c, n)) == (Value(c) + n) % Power(16)
  {
    hide Power, Value, Incremented;
    if n == 0 {
      ModOf(Value(c), Power(16), 0, Value(c));
    } else {
      PlusAdds(c, n - 1);
      IncrementAdds(Plus(c, n - 1));
      ModStep(Value(c) + n - 1, Power(16));
    }
  }

  lemma {:induction false} PlusPlus(c: Counter, m: nat, n: nat)
    ensures Plus(Plus(c, m), n) == Plus(c, m + n)
  {
    if n > 0 {
      PlusPlus(c, m, n - 1);
    }
  }

  // ── Seeking ────────────────────────────────────────────────────────────

  /** Byte-wise addition of a block number to the last n bytes; the carry out of each byte is dropped. */
  function Sought(c: seq<Byte>, blocks: nat, n: nat): (r: seq<Byte>)
    requires n <= |c|
    ensures |r| == |c|
    decreases n
  {
    if n == 0 || blocks == 0 then c
    else Sought(c[..|c| - 1], blocks / 0x100, n - 1) + [(c[|c| - 1] + blocks % 0x100) % 0x100]
  }

  /** No byte of the addition overflows. */
  predicate NoCarry(c: seq<Byte>, blocks: nat, n: nat)
    requires n <= |c|
    decreases n
  {
    n == 0 || blocks == 0
    || (c[|c| - 1] + blocks % 0x100 <= 255 && NoCarry(c[..|c| - 1], blocks / 0x100, n - 1))
  }

  /** The carries dropped by the addition, as a number. */
  function Dropped(c: seq<Byte>, blocks: nat, n: nat): (d: nat)
    requires n <= |c|
    ensures d < Power(n)
    ensures d == 0 <==> NoCarry(c, blocks, n)
    decreases n
  {
    if n == 0 || blocks == 0 then 0
    else 0x100 * Dropped(c[..|c| - 1], blocks / 0x100, n - 1) + (if c[|c| - 1] + blocks % 0x100 <= 255 then 0 else 1)
  }

  lemma {:induction false} SoughtValue(c: seq<Byte>, blocks: nat, n: nat)
    requires n <= |c| && blocks < Power(n)
    ensures Value(Sought(c, blocks, n)) + 0x100 * Dropped(c, blocks, n) == Value(c) + blocks
    decreases n
  {
    hide Value, NoCarry;
    if n > 0 && blocks > 0 {
      hide Power, Sought, Dropped;
      var k := |c| - 1;
      QuotientBelow(blocks, n);
      SoughtValue(c[..k], blocks / 0x100, n - 1);
      LastValue(c);
      SoughtLast(c, blocks, n);
      ByteSum(Value(c[..k]), Value(Sought(c[..k], blocks / 0x100, n - 1)), Dropped(c[..k], blocks / 0x100, n - 1),
              c[k], blocks, Value(Sought(c, blocks, n)), Dropped(c, blocks, n));
    }
  }

  lemma QuotientBelow(blocks: nat, n: nat)
    requires n > 0 && blocks < Power(n)
    ensures blocks / 0x100 < Power(n - 1)
  {
    assert Power(n) == 0x100 * Power(n - 1);
  }

  lemma LastValue(c: seq<Byte>)
    requires c != []
    ensures Value(c) == 0x100 * Value(c[..|c| - 1]) + c[|c| - 1]
  {
  }

  lemma SoughtLast(c: seq<Byte>, blocks: nat, n: nat)
    requires 0 < n <= |c| && blocks > 0
    ensures var k := |c| - 1;
            var sum := c[k] + blocks % 0x100;
            && Value(Sought(c, blocks, n)) == 0x100 * Value(Sought(c[..k], blocks / 0x100, n - 1)) + sum % 0x100
            && Dropped(c, blocks, n) == 0x100 * Dropped(c[..k], blocks / 0x100, n - 1) + if sum <= 255 then 0 else 1
  {
    hide Value, Power, NoCarry;
    var r := Sought(c, blocks, n);
    assert r[..|c| - 1] == Sought(c[..|c| - 1], blocks / 0x100, n - 1);
    LastValue(r);
  }

  /** The sum of one byte with the remainder of a block number; s is the sum of the bytes before it, d what was dropped there. */
  lemma ByteSum(v: nat, s: nat, d: nat, last: Byte, blocks: nat, s': nat, d': nat)
    requires s + 0x100 * d == v + blocks / 0x100
    requires var sum := last + blocks % 0x100;
             s' == 0x100 * s + sum % 0x100 && d' == 0x100 * d + if sum <= 255 then 0 else 1
    ensures s' + 0x100 * d' == 0x100 * v + last + blocks
  {
    var sum := last + blocks % 0x100;
    assert sum % 0x100 == if sum <= 255 then sum else sum - 0x100;
    assert blocks == 0x100 * (blocks / 0x100) + blocks % 0x100;
  }

  lemma {:induction false} PowerGrows(m: nat, n: nat)
    requires m <= n
    ensures Power(m) <= Power(n)
  {
    if m < n {
      PowerGrows(m, n - 1);
    }
  }

  /** The seek is addition to the counter if and only if no byte of the addition overflows. */
  lemma SeekExact(iv: Counter, blocks: nat)
    requires blocks < Power(8)
    ensures Sought(iv, blocks, 8) == Plus(iv, blocks) <==> NoCarry(iv, blocks, 8)
  {
    hide Power, Value, Sought, Plus, NoCarry, Dropped;
    var s, d, x := Sought(iv, blocks, 8), Dropped(iv, blocks, 8), Value(iv) + blocks;
    SoughtValue(iv, blocks, 8);
    PlusAdds(iv, blocks);
    if d == 0 {
      ModOf(x, Power(16), 0, x);
      ValueInjective(s, Plus(iv, blocks));
    } else {
      assert 0x100 * d < Power(9) by { PowerNine(d); }
      PowerGrows(9, 16);
      DroppedCounts(x, 0x100 * d, Power(16));
    }
  }

  lemma PowerNine(d: nat)
    requires d < Power(8)
    ensures 0x100 * d < Power(9)
  {
  }

  /** Taking less than a modulus away changes the residue. */
  lemma DroppedCounts(x: nat, d: nat, m: nat)
    requires 0 < d < m && d <= x
    ensures x - d != x % m
  {
    assert x == m * (x / m) + x % m;
    AtLeastOne(m, x / m);
  }

  /** A counter whose last eight bytes are zero can be sought to any block. */
  lemma {:induction false} ZeroLowHalf(c: seq<Byte>, blocks: nat, n: nat)
    requires n <= |c| && forall k :: |c| - n <= k < |c| ==> c[k] == 0
    ensures NoCarry(c, blocks, n)
    decreases n
  {
    if n > 0 {
      ZeroLowHalf(c[..|c| - 1], blocks / 0x100, n - 1);
    }
  }

  // ── Decryption ─────────────────────────────────────────────────────────

  function Min(a: nat, b: nat): nat { if a < b then a else b }

  function Xor(a: seq<bv8>, b: seq<bv8>): (r: seq<bv8>)
    requires |a| == |b|
    ensures |r| == |a|
  {
    seq(|a|, i requires 0 <= i < |a| => a[i] ^ b[i])
  }

  function Join<T>(a: Option<seq<T>>, b: Option<seq<T>>): Option<seq<T>> {
    if a.Some? && b.Some? then Some(a.value + b.value) else None
  }

  /** The first n bytes under the part of a keystream block that starts at skip. */
  function FirstBytes(cipher: Cipher, data: seq<bv8>, c: Counter, skip: nat, n: nat): Option<seq<bv8>>
    requires n <= |data| && skip + n <= 16
  {
    match cipher(c)
    case None => None
    case Some(k) => Some(Xor(data[..n], k[skip..skip + n]))
  }

  /** Block by block from a counter; None when the cipher fails. */
  function Blocks(cipher: Cipher, data: seq<bv8>, c: Counter): Option<seq<bv8>>
    decreases |data|
  {
    if data == [] then Some([])
    else
      var n := Min(|data|, 16);
      Join(FirstBytes(cipher, data, c, 0, n), Blocks(cipher, data[n..], Incremented(c)))
  }

  /** Decryption of the bytes at an offset of the stream. */
  function Decrypted(cipher: Cipher, data: seq<bv8>, iv: Counter, offset: nat): Option<seq<bv8>> {
    var c := Sought(iv, offset / 16, 8);
    var skip := offset % 16;
    if skip == 0 then Blocks(cipher, data, c)
    else
      var n := Min(|data|, 16 - skip);
      Join(FirstBytes(cipher, data, c, skip, n), Blocks(cipher, data[n..], Incremented(c)))
  }

  // ── The stream ─────────────────────────────────────────────────────────

  /** The cipher gives the keystream blocks from lo up to hi. */
  ghost predicate Available(cipher: Cipher, iv: Counter, lo: nat, hi: nat) {
    forall j :: lo <= j < hi ==> cipher(Plus(iv, j)).Some?
  }

  /** Byte i of the keystream. */
  function KeyByte(cipher: Cipher, iv: Counter, i: nat): bv8 {
    match cipher(Plus(iv, i / 16))
    case None => 0
    case Some(k) => k[i % 16]
  }

  function MaskedBytes(cipher: Cipher, iv: Counter, data: seq<bv8>, offset: nat): (r: seq<bv8>)
    ensures |r| == |data|
  {
    seq(|data|, i requires 0 <= i < |data| => data[i] ^ KeyByte(cipher, iv, offset + i))
  }

  /** The bytes of a stream at an offset, each combined with the keystream byte at its own position. */
  ghost function Masked(cipher: Cipher, iv: Counter, data: seq<bv8>, offset: nat): Option<seq<bv8>> {
    if Available(cipher, iv, offset / 16, (offset + |data| + 15) / 16) then Some(MaskedBytes(cipher, iv, data, offset)) else None
  }

  /** Masking two parts of a stream is masking the whole. */
  lemma MaskedJoin(cipher: Cipher, iv: Counter, a: seq<bv8>, b: seq<bv8>, offset: nat)
    ensures Masked(cipher, iv, a + b, offset) == Join(Masked(cipher, iv, a, offset), Masked(cipher, iv, b, offset + |a|))
  {
    hide KeyByte;
    assert MaskedBytes(cipher, iv, a + b, offset) == MaskedBytes(cipher, iv, a, offset) + MaskedBytes(cipher, iv, b, offset + |a|);
    var lo, mid, hi := offset / 16, (offset + |a|) / 16, (offset + |a| + |b| + 15) / 16;
    AvailableJoin(cipher, iv, lo, (offset + |a| + 15) / 16, mid, hi);
  }

  lemma AvailableJoin(cipher: Cipher, iv: Counter, lo: nat, end: nat, mid: nat, hi: nat)
    requires lo <= mid <= end <= hi
    ensures Available(cipher, iv, lo, hi) <==> Available(cipher, iv, lo, end) && Available(cipher, iv, mid, hi)
  {
    hide Plus;
    forall j | Available(cipher, iv, lo, end) && Available(cipher, iv, mid, hi) && lo <= j < hi
      ensures cipher(Plus(iv, j)).Some?
    {
      if j >= end {
        assert mid <= j;
      }
    }
  }

  /** Part of one block. */
  lemma OneBlock(cipher: Cipher, iv: Counter, data: seq<bv8>, block: nat, skip: nat)
    requires skip + |data| <= 16 && skip < 16 && 0 < skip + |data|
    ensures FirstBytes(cipher, data, Plus(iv, block), skip, |data|) == Masked(cipher, iv, data, 16 * block + skip)
  {
    hide Plus, MaskedBytes, Xor, Masked;
    assert data[..|data|] == data;
    BlockNumber(block, skip);
    BlockNumber(block + 1, skip + |data| - 1);
    MaskedInBlock(cipher, iv, data, 16 * block + skip, block);
    if cipher(Plus(iv, block)).Some? {
      BytesInBlock(cipher, iv, data, block, skip);
    }
  }

  lemma BlockNumber(block: nat, j: nat)
    requires j < 16
    ensures (16 * block + j) / 16 == block && (16 * block + j) % 16 == j
  {
  }

  lemma MaskedInBlock(cipher: Cipher, iv: Counter, data: seq<bv8>, offset: nat, block: nat)
    requires offset / 16 == block && (offset + |data| + 15) / 16 == block + 1
    ensures Masked(cipher, iv, data, offset) ==
            if cipher(Plus(iv, block)).Some? then Some(MaskedBytes(cipher, iv, data, offset)) else None
  {
    hide Plus, MaskedBytes;
    assert Available(cipher, iv, block, block + 1) <==> cipher(Plus(iv, block)).Some?;
  }

  lemma BytesInBlock(cipher: Cipher, iv: Counter, data: seq<bv8>, block: nat, skip: nat)
    requires skip + |data| <= 16 && cipher(Plus(iv, block)).Some?
    ensures MaskedBytes(cipher, iv, data, 16 * block + skip) ==
            Xor(data, cipher(Plus(iv, block)).value[skip..skip + |data|])
  {
    hide Plus, KeyByte;
    var masked := MaskedBytes(cipher, iv, data, 16 * block + skip);
    var xored := Xor(data, cipher(Plus(iv, block)).value[skip..skip + |data|]);
    forall i | 0 <= i < |data| ensures masked[i] == xored[i] {
      KeyInBlock(cipher, iv, block, skip + i);
    }
    assert masked == xored;
  }

  lemma KeyInBlock(cipher: Cipher, iv: Counter, block: nat, j: nat)
    requires j < 16 && cipher(Plus(iv, block)).Some?
    ensures KeyByte(cipher, iv, 16 * block + j) == cipher(Plus(iv, block)).value[j]
  {
    hide Plus;
    BlockNumber(block, j);
  }

  lemma JoinNothing<T>(a: Option<seq<T>>)
    ensures Join(a, Some([])) == a
  {
    if a.Some? {
      assert a.value + [] == a.value;
    }
  }

  lemma NothingMasked(cipher: Cipher, iv: Counter, block: nat)
    ensures Masked(cipher, iv, [], 16 * block) == Some([])
  {
  }

  /** Block-by-block decryption from a block boundary masks with the stream. */
  lemma {:induction false} BlocksMask(cipher: Cipher, iv: Counter, block: nat, data: seq<bv8>)
    ensures Blocks(cipher, data, Plus(iv, block)) == Masked(cipher, iv, data, 16 * block)
    decreases |data|
  {
    hide Masked, FirstBytes;
    if data == [] {
      NothingMasked(cipher, iv, block);
    } else {
      var n := Min(|data|, 16);
      var a, b := data[..n], data[n..];
      assert data == a + b;
      FirstPart(cipher, data, Plus(iv, block), 0, n);
      OneBlock(cipher, iv, a, block, 0);
      BlocksMask(cipher, iv, block + 1, b);
      MaskedJoin(cipher, iv, a, b, 16 * block);
      if n < 16 {
        assert b == [];
        MaskedNothing(cipher, iv, a, b, block);
      }
    }
  }

  lemma FirstPart(cipher: Cipher, data: seq<bv8>, c: Counter, skip: nat, n: nat)
    requires n <= |data| && skip + n <= 16
    ensures FirstBytes(cipher, data, c, skip, n) == FirstBytes(cipher, data[..n], c, skip, n)
  {
    assert data[..n][..n] == data[..n];
  }

  /** After a last partial block nothing more is needed. */
  lemma MaskedNothing(cipher: Cipher, iv: Counter, a: seq<bv8>, b: seq<bv8>, block: nat)
    requires b == [] && |a| < 16
    ensures Join(Masked(cipher, iv, a, 16 * block), Masked(cipher, iv, [], 16 * block + 16)) == Masked(cipher, iv, a + b, 16 * block)
  {
    assert a + b == a;
    NothingMasked(cipher, iv, block + 1);
    JoinNothing(Masked(cipher, iv, a, 16 * block));
  }

  /** Decryption at an offset masks with the stream of the initial counter, when the seek to its block is exact. */
  lemma DecryptMasks(cipher: Cipher, data: seq<bv8>, iv: Counter, offset: nat)
    requires offset / 16 < Power(8) && NoCarry(iv, offset / 16, 8)
    ensures Decrypted(cipher, data, iv, offset) == Masked(cipher, iv, data, offset)
  {
    hide Masked, FirstBytes, NoCarry, Sought, Power, Blocks;
    var block, skip := offset / 16, offset % 16;
    assert offset == 16 * block + skip;
    SeekExact(iv, block);
    if skip == 0 {
      BlocksMask(cipher, iv, block, data);
    } else {
      var n := Min(|data|, 16 - skip);
      var a, b := data[..n], data[n..];
      assert data == a + b;
      FirstPart(cipher, data, Plus(iv, block), skip, n);
      OneBlock(cipher, iv, a, block, skip);
      BlocksMask(cipher, iv, block + 1, b);
      if n < 16 - skip {
        assert b == [] && a == data;
        NothingMasked(cipher, iv, block + 1);
        JoinNothing(Masked(cipher, iv, a, offset));
        assert Decrypted(cipher, data, iv, offset) == Join(Masked(cipher, iv, a, offset), Some([]));
      } else {
        MaskedJoin(cipher, iv, a, b, offset);
        assert offset + |a| == 16 * (block + 1);
      }
    }
  }

  // ── Laws of random access ──────────────────────────────────────────────

  /** The last eight bytes of the initial counter are zero. */
  predicate LowHalfZero(iv: Counter) {
    forall k :: 8 <= k < 16 ==> iv[k] == 0
  }

  /** Offsets are 64-bit. */
  type Offset = o: nat | o < 0x1_0000_0000_0000_0000

  lemma AnyBlock(iv: Counter, offset: Offset)
    requires LowHalfZero(iv)
    ensures offset / 16 < Power(8) && NoCarry(iv, offset / 16, 8)
  {
    ZeroLowHalf(iv, offset / 16, 8);
    assert Power(4) == 0x1_0000_0000;
    assert Power(8) == 0x1_0000_0000 * Power(4);
  }

  /** Decrypting two parts of a stream, each at its own offset, is decrypting the whole. */
  lemma DecryptJoin(cipher: Cipher, a: seq<bv8>, b: seq<bv8>, iv: Counter, offset: Offset)
    requires LowHalfZero(iv) && offset + |a| < 0x1_0000_0000_0000_0000
    ensures Decrypted(cipher, a + b, iv, offset) ==
            Join(Decrypted(cipher, a, iv, offset), Decrypted(cipher, b, iv, offset + |a|))
  {
    hide Decrypted, Masked, Power, NoCarry;
    AnyBlock(iv, offset);
    AnyBlock(iv, offset + |a|);
    DecryptMasks(cipher, a + b, iv, offset);
    DecryptMasks(cipher, a, iv, offset);
    DecryptMasks(cipher, b, iv, offset + |a|);
    MaskedJoin(cipher, iv, a, b, offset);
  }

  /** Random access: decrypting a suffix at its offset gives the suffix of the whole decryption. */
  lemma RandomAccess(cipher: Cipher, data: seq<bv8>, iv: Counter, k: Offset)
    requires LowHalfZero(iv) && k <= |data| && Decrypted(cipher, data, iv, 0).Some?
    ensures |Decrypted(cipher, data, iv, 0).value| == |data|
    ensures Decrypted(cipher, data[k..], iv, k) == Some(Decrypted(cipher, data, iv, 0).value[k..])
  {
    hide Decrypted, Power, NoCarry;
    assert data == data[..k] + data[k..];
    DecryptJoin(cipher, data[..k], data[k..], iv, 0);
    AnyBlock(iv, 0);
    DecryptMasks(cipher, data[..k], iv, 0);
    DecryptMasks(cipher, data, iv, 0);
  }

  function Concat(chunks: seq<seq<bv8>>): seq<bv8> {
    if chunks == [] then [] else chunks[0] + Concat(chunks[1..])
  }

  /** Decrypting a stream chunk by chunk. */
  function Chunked(cipher: Cipher, chunks: seq<seq<bv8>>, iv: Counter, offset: nat): Option<seq<bv8>> {
    if chunks == [] then Some([])
    else Join(Decrypted(cipher, chunks[0], iv, offset), Chunked(cipher, chunks[1..], iv, offset + |chunks[0]|))
  }

  /** However a stream is chunked, the chunks decrypt to the whole. */
  lemma {:induction false} ChunksAreWhole(cipher: Cipher, chunks: seq<seq<bv8>>, iv: Counter, offset: Offset)
    requires LowHalfZero(iv) && offset + |Concat(chunks)| < 0x1_0000_0000_0000_0000 && chunks != []
    ensures Chunked(cipher, chunks, iv, offset) == Decrypted(cipher, Concat(chunks), iv, offset)
    decreases |chunks|
  {
    hide Decrypted;
    var rest := Concat(chunks[1..]);
    DecryptJoin(cipher, chunks[0], rest, iv, offset);
    if |chunks| > 1 {
      ChunksAreWhole(cipher, chunks[1..], iv, offset + |chunks[0]|);
    } else {
      assert chunks[0] + rest == chunks[0];
      JoinNothing(Decrypted(cipher, chunks[0], iv, offset));
    }
  }

  /** Decrypting twice at the same offset gives the data back, for any initial counter. */
  lemma {:induction false} BlocksTwice(cipher: Cipher, data: seq<bv8>, c: Counter)
    requires Blocks(cipher, data, c).Some?
    ensures |Blocks(cipher, data, c).value| == |data|
    ensures Blocks(cipher, Blocks(cipher, data, c).value, c) == Some(data)
    decreases |data|
  {
    if data != [] {
      var n := Min(|data|, 16);
      BlocksTwice(cipher, data[n..], Incremented(c));
      FirstTwice(cipher, data, c, 0, n);
      var first, rest := FirstBytes(cipher, data, c, 0, n).value, Blocks(cipher, data[n..], Incremented(c)).value;
      assert (first + rest)[..n] == first && (first + rest)[n..] == rest;
      FirstPart(cipher, first + rest, c, 0, n);
      assert data == data[..n] + data[n..];
    }
  }

  lemma FirstTwice(cipher: Cipher, data: seq<bv8>, c: Counter, skip: nat, n: nat)
    requires n <= |data| && skip + n <= 16 && FirstBytes(cipher, data, c, skip, n).Some?
    ensures |FirstBytes(cipher, data, c, skip, n).value| == n
    ensures FirstBytes(cipher, FirstBytes(cipher, data, c, skip, n).value, c, skip, n) == Some(data[..n])
  {
    var p := FirstBytes(cipher, data, c, skip, n).value;
    var k := cipher(c).value[skip..skip + n];
    assert p[..n] == p;
    forall i | 0 <= i < n ensures Xor(p, k)[i] == data[..n][i] {
      assert (data[i] ^ k[i]) ^ k[i] == data[i];
    }
    assert Xor(p, k) == data[..n];
  }

  lemma DecryptTwice(cipher: Cipher, data: seq<bv8>, iv: Counter, offset: nat)
    requires Decrypted(cipher, data, iv, offset).Some?
    ensures Decrypted(cipher, Decrypted(cipher, data, iv, offset).value, iv, offset) == Some(data)
  {
    hide Blocks, FirstBytes, Sought;
    var c, skip := Sought(iv, offset / 16, 8), offset % 16;
    if skip == 0 {
      BlocksTwice(cipher, data, c);
    } else {
      var n := Min(|data|, 16 - skip);
      BlocksTwice(cipher, data[n..], Incremented(c));
      FirstTwice(cipher, data, c, skip, n);
      var first, rest := FirstBytes(cipher, data, c, skip, n).value, Blocks(cipher, data[n..], Incremented(c)).value;
      assert (first + rest)[..n] == first && (first + rest)[n..] == rest;
      FirstPart(cipher, first + rest, c, skip, n);
      assert data == data[..n] + data[n..];
    }
  }

  // ── The decryption routine ─────────────────────────────────────────────

  /** One byte of the seek, with the bytes already done behind it. */
  lemma SoughtStep(c: seq<Byte>, blocks: nat, n: nat, tail: seq<Byte>)
    requires 0 < n <= |c| && blocks > 0
    ensures Sought(c, blocks, n) + tail ==
            Sought(c[..|c| - 1], blocks / 0x100, n - 1) + ([(c[|c| - 1] + blocks % 0x100) % 0x100] + tail)
  {
  }

  /** Adds a block number into the low eight bytes of a counter, byte by byte. */
  method SeekCounter(counter: array<Byte>, blockOffset: nat)
    requires counter.Length == 16
    modifies counter
    ensures counter[..] == Sought(old(counter[..]), blockOffset, 8)
  {
    hide Sought;
    ghost var iv := counter[..];
    var i, rest := 0, blockOffset;
    assert iv[..16] == iv && Sought(iv, blockOffset, 8) + [] == Sought(iv, blockOffset, 8);
    while i < 8 && rest > 0
      invariant 0 <= i <= 8
      invariant counter[..16 - i] == iv[..16 - i]
      invariant Sought(iv, blockOffset, 8) == Sought(iv[..16 - i], rest, 8 - i) + counter[16 - i..]
    {
      var idx := 15 - i;
      ghost var done, left := counter[16 - i..], iv[..16 - i];
      assert left[..|left| - 1] == iv[..15 - i] && left[idx] == counter[idx];
      SoughtStep(left, rest, 8 - i, done);
      counter[idx] := (counter[idx] as int + rest % 0x100) % 0x100;
      assert counter[idx..] == [counter[idx]] + done;
      i, rest := i + 1, rest / 0x100;
    }
    NothingSought(iv[..16 - i], rest, 8 - i);
    assert counter[..] == counter[..16 - i] + counter[16 - i..];
  }

  lemma NothingSought(c: seq<Byte>, blocks: nat, n: nat)
    requires n <= |c| && (n == 0 || blocks == 0)
    ensures Sought(c, blocks, n) == c
  {
  }

  lemma IncrementStep(c: seq<Byte>, tail: seq<Byte>)
    requires c != []
    ensures var n := |c| - 1;
            Incremented(c) + tail ==
            if c[n] == 255 then Incremented(c[..n]) + ([0] + tail) else c[..n] + ([c[n] + 1] + tail)
  {
  }

  method Increment(counter: array<Byte>)
    requires counter.Length == 16
    modifies counter
    ensures counter[..] == Incremented(old(counter[..]))
  {
    ghost var c := counter[..];
    var i := 15;
    assert c[..16] == c && Incremented(c) + [] == Incremented(c);
    hide Incremented;
    while i >= 0
      invariant -1 <= i <= 15
      invariant counter[..i + 1] == c[..i + 1]
      invariant Incremented(c) == Incremented(c[..i + 1]) + counter[i + 1..]
    {
      ghost var done, left := counter[i + 1..], c[..i + 1];
      assert left[..|left| - 1] == c[..i] && left[i] == counter[i];
      IncrementStep(left, done);
      counter[i] := (counter[i] as int + 1) % 0x100;
      assert counter[i..] == [counter[i]] + done;
      if counter[i] != 0 {
        assert counter[..] == counter[..i] + counter[i..];
        return;
      }
      i := i - 1;
    }
    assert counter[0..] == counter[..];
    assert Incremented([]) + counter[0..] == counter[..] by { EmptyIncremented(); }
  }

  lemma EmptyIncremented()
    ensures Incremented([]) == []
  {
  }

  /** n bytes combined with a keystream from skip on; source and target may be the same. */
  method XorBlock(source: array<bv8>, target: array<bv8>, pos: nat, key: Keystream, skip: nat, n: nat, size: nat)
    requires pos + n <= size <= source.Length && size <= target.Length && skip + n <= 16
    modifies target
    ensures target[pos..pos + n] == Xor(old(source[pos..pos + n]), key[skip..skip + n])
    ensures forall k :: 0 <= k < pos || pos + n <= k < target.Length ==> target[k] == old(target[k])
    ensures source[pos + n..size] == old(source[pos + n..size])
  {
    for i := 0 to n
      invariant forall k :: pos <= k < pos + i ==> target[k] == old(source[k]) ^ key[skip + k - pos]
      invariant forall k :: pos + i <= k < size ==> source[k] == old(source[k])
      invariant forall k :: 0 <= k < pos || pos + n <= k < target.Length ==> target[k] == old(target[k])
    {
      target[pos + i] := source[pos + i] ^ key[skip + i];
    }
    ghost var xored := Xor(old(source[pos..pos + n]), key[skip..skip + n]);
    forall k | 0 <= k < n ensures target[pos..pos + n][k] == xored[k] {
      assert target[pos..pos + n][k] == target[pos + k];
    }
  }

  lemma BlocksStep(cipher: Cipher, data: seq<bv8>, c: Counter)
    requires data != []
    ensures var n := Min(|data|, 16);
            && (cipher(c).None? ==> Blocks(cipher, data, c).None?)
            && (cipher(c).Some? ==>
                  Blocks(cipher, data, c) ==
                  Join(Some(Xor(data[..n], cipher(c).value[0..n])), Blocks(cipher, data[n..], Incremented(c))))
  {
    hide Incremented;
  }

  lemma JoinAssociative<T>(a: seq<T>, b: seq<T>, c: Option<seq<T>>)
    ensures Join(Some(a), Join(Some(b), c)) == Join(Some(a + b), c)
  {
    if c.Some? {
      assert a + (b + c.value) == a + b + c.value;
    }
  }

  /** One block of at most 16 bytes, and the counter moved on. */
  method DecryptBlock(cipher: Cipher, source: array<bv8>, target: array<bv8>, pos: nat, size: nat, counter: array<Byte>)
    returns (ok: bool, next: nat)
    requires pos < size <= source.Length && size <= target.Length && counter.Length == 16
    requires counter as object != target && counter as object != source
    modifies target, counter
    ensures !ok ==> Blocks(cipher, old(source[pos..size]), old(counter[..])).None?
    ensures ok ==> next == pos + Min(size - pos, 16)
    ensures ok ==> source[next..size] == old(source[next..size])
    ensures ok ==> Blocks(cipher, old(source[pos..size]), old(counter[..])) ==
                   Join(Some(target[pos..next]), Blocks(cipher, source[next..size], counter[..]))
    ensures forall k :: 0 <= k < pos || size <= k < target.Length ==> target[k] == old(target[k])
  {
    hide Blocks, FirstBytes, Incremented, Xor, Join;
    ghost var data := source[pos..size];
    var c: Counter := counter[..];
    BlocksStep(cipher, data, c);
    var keystream := cipher(c);
    if keystream.None? {
      return false, pos;
    }
    var remaining := Min(size - pos, 16);
    assert data[..remaining] == source[pos..pos + remaining];
    XorBlock(source, target, pos, keystream.value, 0, remaining, size);
    Increment(counter);
    next, ok := pos + remaining, true;
    assert data[remaining..] == source[next..size];
  }

  /** The blocks from a position on, until the bytes or the cipher give out. */
  method DecryptBlocks(cipher: Cipher, source: array<bv8>, target: array<bv8>, start: nat, size: nat, counter: array<Byte>)
    returns (ok: bool)
    requires start <= size <= source.Length && size <= target.Length && counter.Length == 16
    requires counter as object != target && counter as object != source
    modifies target, counter
    ensures ok <==> Blocks(cipher, old(source[start..size]), old(counter[..])).Some?
    ensures ok ==> Blocks(cipher, old(source[start..size]), old(counter[..])) == Some(target[start..size])
    ensures forall k :: 0 <= k < start || size <= k < target.Length ==> target[k] == old(target[k])
  {
    hide Blocks, Join;
    ghost var all := Blocks(cipher, source[start..size], counter[..]);
    var processed := start;
    JoinEmpty(all);
    assert target[start..start] == [];
    while processed < size
      invariant start <= processed <= size
      invariant all == Join(Some(target[start..processed]), Blocks(cipher, source[processed..size], counter[..]))
      invariant forall k :: 0 <= k < start || size <= k < target.Length ==> target[k] == old(target[k])
    {
      ghost var rest, done := Blocks(cipher, source[processed..size], counter[..]), target[start..processed];
      var more, next := DecryptBlock(cipher, source, target, processed, size, counter);
      if !more {
        JoinFails(done, rest);
        return false;
      }
      assert target[start..processed] == done;
      JoinAssociative(done, target[processed..next], Blocks(cipher, source[next..size], counter[..]));
      SplitArray(target, start, processed, next);
      processed := next;
    }
    assert source[size..size] == [];
    BlocksDone(cipher, counter[..]);
    JoinNothing(Some(target[start..size]));
    ok := true;
  }

  lemma SplitArray<T>(s: array<T>, a: nat, b: nat, c: nat)
    requires a <= b <= c <= s.Length
    ensures s[a..c] == s[a..b] + s[b..c]
  {
  }

  lemma BlocksDone(cipher: Cipher, c: Counter)
    ensures Blocks(cipher, [], c) == Some([])
  {
  }

  lemma JoinEmpty<T>(a: Option<seq<T>>)
    ensures a == Join(Some([]), a)
  {
    if a.Some? {
      assert [] + a.value == a.value;
    }
  }

  lemma JoinFails<T>(a: seq<T>, b: Option<seq<T>>)
    requires b.None?
    ensures Join(Some(a), b).None?
  {
  }

  /**
   Decrypts size bytes that lie at an offset of the stream, possibly in place.
   Bytes past size are untouched; on a cipher failure the result is false.
   */
  method DecryptCtr(cipher: Cipher, ciphertext: array<bv8>, plaintext: array<bv8>, size: nat, iv: Counter, offset: nat)
    returns (ok: bool)
    requires size <= ciphertext.Length && size <= plaintext.Length
    modifies plaintext
    ensures ok <==> Decrypted(cipher, old(ciphertext[..size]), iv, offset).Some?
    ensures ok ==> Decrypted(cipher, old(ciphertext[..size]), iv, offset) == Some(plaintext[..size])
    ensures plaintext[size..] == old(plaintext[size..])
  {
    hide Blocks, Sought, Incremented, Xor;
    ghost var data := ciphertext[..size];
    var counter := new Byte[16](i requires 0 <= i < 16 => iv[i]);
    assert counter[..] == iv;
    SeekCounter(counter, offset / 16);
    var byteOffset := offset % 16;
    if byteOffset == 0 {
      assert ciphertext[0..size] == data;
      ok := DecryptBlocks(cipher, ciphertext, plaintext, 0, size, counter);
      assert plaintext[0..size] == plaintext[..size];
    } else {
      var first := Min(size, 16 - byteOffset);
      var c: Counter := counter[..];
      var keystream := cipher(c);
      if keystream.None? {
        return false;
      }
      assert data[..first] == ciphertext[0..0 + first];
      XorBlock(ciphertext, plaintext, 0, keystream.value, byteOffset, first, size);
      Increment(counter);
      assert data[first..] == ciphertext[first..size];
      ghost var head := plaintext[0..first];
      ok := DecryptBlocks(cipher, ciphertext, plaintext, first, size, counter);
      assert plaintext[..first] == head;
      assert plaintext[..size] == plaintext[..first] + plaintext[first..size];
    }
  }
}
