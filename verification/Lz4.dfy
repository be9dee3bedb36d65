/**
 The LZ4 block decoder of the NSO loader: decoding an encoding gives the
 expansion, cut to the size of the destination.
 */
module Lz4 {
  import opened Arithmetic
  import opened Common
  import opened Sequences

  // ── Decoding ───────────────────────────────────────────────────────────

  /** What a decoder run gives: the bytes written, or a read past the end of the input or before the output. */
  datatype Result = Finished(out: seq<Byte>) | OutOfBounds

  datatype Read = Read(len: u32, rest: seq<Byte>)

  /** Extension bytes of a length, up to one that is not 255 or to the end of the input. */
  function Extend(rest: seq<Byte>, len: u32): (r: Option<Read>)
    ensures r.Some? ==> |r.value.rest| < |rest|
    decreases |rest|
  {
    if rest == [] then None
    else
      var sum := (len + rest[0]) % 0x1_0000_0000;
      if rest[0] == 255 && |rest| > 1 then Extend(rest[1..], sum) else Some(Read(sum, rest[1..]))
  }

  /** A length whose field has the value start, which is extended when it is full. */
  function Length(rest: seq<Byte>, start: u32, full: u32): (r: Option<Read>)
    ensures r.Some? ==> |r.value.rest| <= |rest|
  {
    if start == full then Extend(rest, start) else Some(Read(start, rest))
  }

  /** Byte by byte, so that a match may overlap the bytes it produces. */
  function CopyMatch(out: seq<Byte>, offset: nat, n: nat, cap: nat): (r: seq<Byte>)
    requires n > 0 && |out| < cap ==> 0 < offset <= |out|
    requires |out| <= cap
    ensures |out| <= |r| <= cap
    decreases n
  {
    if n == 0 || |out| >= cap then out else CopyMatch(out + [out[|out| - offset]], offset, n - 1, cap)
  }

  function Min(a: nat, b: nat): nat { if a < b then a else b }

  /** One sequence: decoding goes on, stops or runs out of bounds. */
  datatype Next = Continue(rest: seq<Byte>, out: seq<Byte>) | Stop(out: seq<Byte>) | Overrun

  function Offset(low: Byte, high: Byte): nat { low as nat + 0x100 * high }

  /** The match that follows the literals. */
  function Match(rest: seq<Byte>, nibble: Byte, out: seq<Byte>, cap: nat): (n: Next)
    requires |out| <= cap
    ensures n.Continue? ==> |n.rest| < |rest| && |n.out| <= cap
    ensures n.Stop? ==> |n.out| <= cap
  {
    if rest == [] then Stop(out)
    else if |rest| < 2 then Overrun
    else
      var offset := Offset(rest[0], rest[1]);
      if offset == 0 then Stop(out)
      else
        match Length(rest[2..], nibble + 4, 19)
        case None => Overrun
        case Some(m) =>
          if m.len > 0 && |out| < cap && offset > |out| then Overrun
          else Continue(m.rest, CopyMatch(out, offset, m.len, cap))
  }

  function Sequence(rest: seq<Byte>, out: seq<Byte>, cap: nat): (n: Next)
    requires rest != [] && |out| < cap
    ensures n.Continue? ==> |n.rest| < |rest| && |n.out| <= cap
    ensures n.Stop? ==> |n.out| <= cap
  {
    match Length(rest[1..], rest[0] / 16, 15)
    case None => Overrun
    case Some(l) =>
      var copied := Min(l.len, cap - |out|);
      if l.len > 0 && copied > |l.rest| then Stop(out)
      else if l.len >= |l.rest| then Stop(out + l.rest[..copied])
      else Match(l.rest[l.len..], rest[0] % 16, out + l.rest[..copied], cap)
  }

  function Decode(rest: seq<Byte>, out: seq<Byte>, cap: nat): (r: Result)
    requires |out| <= cap
    ensures r.Finished? ==> |r.out| <= cap
    decreases |rest|
  {
    if rest == [] || |out| >= cap then Finished(out)
    else
      match Sequence(rest, out, cap)
      case Continue(rest', out') => Decode(rest', out', cap)
      case Stop(out') => Finished(out')
      case Overrun => OutOfBounds
  }

  const MAGIC: seq<Byte> := [0x04, 0x22, 0x4D, 0x18]

  predicate IsCompressed(src: seq<Byte>) {
    |src| >= 4 && src[..4] == MAGIC
  }

  function Take<T>(s: seq<T>, n: nat): (r: seq<T>)
    ensures |r| == Min(|s|, n)
  {
    if |s| <= n then s else s[..n]
  }

  /** The bytes a destination of the given size receives. */
  function Decompressed(src: seq<Byte>, cap: nat): (r: Result)
    ensures r.Finished? ==> |r.out| <= cap
  {
    if IsCompressed(src) then Decode(src[4..], [], cap) else Finished(Take(src, cap))
  }

  // ── The decoder ────────────────────────────────────────────────────────

  method ReadLength(input: seq<Byte>, pos: nat, start: u32, full: u32) returns (ok: bool, len: u32, next: nat)
    requires pos <= |input|
    ensures next <= |input|
    ensures ok <==> Length(input[pos..], start, full).Some?
    ensures ok ==> pos <= next && Length(input[pos..], start, full) == Some(Read(len, input[next..]))
  {
    ok, len, next := true, start, pos;
    if start == full {
      var extra := 255;
      while extra == 255
        invariant pos <= next <= |input|
        invariant extra == 255 ==> Extend(input[next..], len) == Extend(input[pos..], start)
        invariant extra != 255 ==> Extend(input[pos..], start) == Some(Read(len, input[next..]))
        decreases |input| - next, extra
      {
        if next >= |input| {
          return false, len, next;
        }
        extra := input[next];
        assert input[next..][1..] == input[next + 1..];
        next := next + 1;
        len := (len + extra) % 0x1_0000_0000;
        if next >= |input| {
          break;
        }
      }
    }
  }

  /** The bytes of a match, read back from the output while it grows. */
  method CopyBack(dst: array<Byte>, start: nat, offset: nat, n: u32) returns (pos: nat)
    requires start <= dst.Length && (n > 0 && start < dst.Length ==> 0 < offset <= start)
    modifies dst
    ensures start <= pos <= dst.Length && dst[..pos] == CopyMatch(old(dst[..start]), offset, n, dst.Length)
    ensures forall k :: pos <= k < dst.Length ==> dst[k] == old(dst[k])
  {
    pos := start;
    var i := 0;
    while i < n && pos < dst.Length
      invariant i <= n && start <= pos <= dst.Length
      invariant i < n && pos < dst.Length ==> 0 < offset <= pos
      invariant CopyMatch(dst[..pos], offset, n - i, dst.Length) == CopyMatch(old(dst[..start]), offset, n, dst.Length)
      invariant forall k :: pos <= k < dst.Length ==> dst[k] == old(dst[k])
    {
      ghost var out := dst[..pos];
      dst[pos] := dst[pos - offset];
      assert dst[..pos + 1] == out + [out[pos - offset]];
      pos, i := pos + 1, i + 1;
    }
  }

  /** How a call ends: with a count of bytes written, or with an access out of bounds. */
  datatype Outcome = Written(count: nat) | Invalid

  /** What the destination holds after a run that began with no output. */
  ghost predicate Holds(r: Result, outcome: Outcome, dst: seq<Byte>, before: seq<Byte>) {
    match r
    case Finished(out) => outcome == Written(|out|) && |dst| == |before| && out <= dst && dst[|out|..] == before[|out|..]
    case OutOfBounds => outcome == Invalid
  }

  datatype Progress = More | Ended | Broken

  /** What one step did: its progress, the new output and the new input position are those of the specification. */
  ghost predicate Follows(n: Next, progress: Progress, input: seq<Byte>, pos: nat, dst: seq<Byte>, outPos: nat) {
    match n
    case Continue(rest, out) => progress == More && pos <= |input| && outPos <= |dst| && rest == input[pos..] && out == dst[..outPos]
    case Stop(out) => progress == Ended && outPos <= |dst| && out == dst[..outPos]
    case Overrun => progress == Broken
  }

  method DecodeMatch(input: seq<Byte>, pos: nat, nibble: Byte, dst: array<Byte>, outPos: nat)
    returns (progress: Progress, next: nat, end: nat)
    requires pos <= |input| && outPos <= dst.Length && nibble < 16
    modifies dst
    ensures Follows(Match(input[pos..], nibble, old(dst[..outPos]), dst.Length), progress, input, next, dst[..], end)
    ensures progress == More ==> pos < next
    ensures progress != Broken ==> outPos <= end <= dst.Length && forall k :: end <= k < dst.Length ==> dst[k] == old(dst[k])
  {
    next, end := pos, outPos;
    if pos >= |input| {
      return Ended, next, end;
    }
    if pos + 1 >= |input| {
      return Broken, next, end;
    }
    var offset := Offset(input[pos], input[pos + 1]);
    if offset == 0 {
      return Ended, next, end;
    }
    assert input[pos..][2..] == input[pos + 2..];
    var ok, matchLen, after := ReadLength(input, pos + 2, nibble + 4, 19);
    if !ok || (matchLen > 0 && outPos < dst.Length && offset > outPos) {
      return Broken, next, end;
    }
    progress, next := More, after;
    end := CopyBack(dst, outPos, offset, matchLen);
    assert dst[..][..end] == dst[..end];
  }

  method CopyLiterals(input: seq<Byte>, pos: nat, n: nat, dst: array<Byte>, outPos: nat)
    requires pos + n <= |input| && outPos + n <= dst.Length
    modifies dst
    ensures dst[..outPos + n] == old(dst[..outPos]) + input[pos..][..n]
    ensures forall k :: outPos + n <= k < dst.Length ==> dst[k] == old(dst[k])
  {
    forall k | 0 <= k < n {
      dst[outPos + k] := input[pos + k];
    }
  }

  method DecodeSequence(input: seq<Byte>, inPos: nat, dst: array<Byte>, outPos: nat)
    returns (progress: Progress, next: nat, end: nat)
    requires inPos < |input| && outPos < dst.Length
    modifies dst
    ensures Follows(Sequence(input[inPos..], old(dst[..outPos]), dst.Length), progress, input, next, dst[..], end)
    ensures progress == More ==> inPos < next
    ensures progress != Broken ==> outPos <= end <= dst.Length && forall k :: end <= k < dst.Length ==> dst[k] == old(dst[k])
  {
    hide CopyMatch, Extend, Length, Match;
    next, end := inPos, outPos;
    var token := input[inPos];
    assert input[inPos..][1..] == input[inPos + 1..];
    var ok, litLen, pos := ReadLength(input, inPos + 1, token / 16, 15);
    if !ok {
      return Broken, next, end;
    }
    var toCopy := Min(litLen, dst.Length - outPos);
    if litLen > 0 {
      if pos + toCopy > |input| {
        return Ended, next, end;
      }
      CopyLiterals(input, pos, toCopy, dst, outPos);
      end := outPos + toCopy;
    }
    assert dst[..end] == old(dst[..outPos]) + input[pos..][..toCopy];
    if pos + litLen >= |input| {
      assert dst[..][..end] == dst[..end];
      return Ended, next, end;
    }
    assert input[pos..][litLen..] == input[pos + litLen..];
    progress, next, end := DecodeMatch(input, pos + litLen, token % 16, dst, end);
  }

  method DecodeBlock(input: seq<Byte>, dst: array<Byte>) returns (r: Outcome)
    modifies dst
    ensures Holds(Decode(input, [], dst.Length), r, dst[..], old(dst[..]))
  {
    hide Sequence;
    var inPos, outPos := 0, 0;
    assert input[0..] == input && dst[..0] == [];
    while inPos < |input| && outPos < dst.Length
      invariant inPos <= |input| && outPos <= dst.Length
      invariant Decode(input[inPos..], dst[..outPos], dst.Length) == Decode(input, [], dst.Length)
      invariant forall k :: outPos <= k < dst.Length ==> dst[k] == old(dst[k])
      decreases |input| - inPos
    {
      var progress, next, end := DecodeSequence(input, inPos, dst, outPos);
      if progress == Broken {
        return Invalid;
      }
      assert dst[..][..end] == dst[..end];
      if progress == Ended {
        return Written(end);
      }
      inPos, outPos := next, end;
    }
    r := Written(outPos);
  }

  /** Decompresses data that starts with the magic number; copies any other. */
  method Decompress(src: seq<Byte>, dst: array<Byte>) returns (r: Outcome)
    modifies dst
    ensures Holds(Decompressed(src, dst.Length), r, dst[..], old(dst[..]))
  {
    if !(|src| >= 4 && src[0] == 0x04 && src[1] == 0x22 && src[2] == 0x4D && src[3] == 0x18) {
      assert !IsCompressed(src);
      var copy := Min(|src|, dst.Length);
      forall k | 0 <= k < copy {
        dst[k] := src[k];
      }
      return Written(copy);
    }
    assert src[..4] == MAGIC;
    r := DecodeBlock(src[4..], dst);
  }

  // ── Encoding and expansion ─────────────────────────────────────────────

  /** Literals, then a match: matchLen bytes repeated from offset bytes back. */
  datatype Seq = Seq(literals: seq<Byte>, offset: nat, matchLen: nat)

  /** A block ends with literals only. */
  datatype Block = Block(seqs: seq<Seq>, last: seq<Byte>)

  /** The length of a match is at least four and its offset reaches back no further than the output. */
  predicate ValidSeq(s: Seq, produced: nat) {
    1 <= s.offset <= produced + |s.literals| && s.offset < 0x1_0000 && 4 <= s.matchLen
  }

  const WRAP := 0x1_0000_0000

  /** The decoder's lengths have 32 bits. */
  predicate Short(s: Seq) {
    |s.literals| < WRAP && s.matchLen < WRAP
  }

  predicate ValidSeqs(seqs: seq<Seq>, produced: nat) {
    seqs == [] || (ValidSeq(seqs[0], produced) && ValidSeqs(seqs[1..], produced + |seqs[0].literals| + seqs[0].matchLen))
  }

  predicate Valid(b: Block) {
    ValidSeqs(b.seqs, 0)
  }

  predicate AllShort(seqs: seq<Seq>, last: seq<Byte>) {
    |last| < WRAP && forall k :: 0 <= k < |seqs| ==> Short(seqs[k])
  }

  /** The last offset bytes of the output, repeated periodically over n bytes. */
  function Repeated(out: seq<Byte>, offset: nat, n: nat): (r: seq<Byte>)
    requires 0 < offset <= |out|
    ensures |r| == n
  {
    seq(n, k requires 0 <= k => out[|out| - offset + k % offset])
  }

  function ExpandSeqs(seqs: seq<Seq>, out: seq<Byte>): (r: seq<Byte>)
    requires ValidSeqs(seqs, |out|)
    ensures out <= r
    decreases |seqs|
  {
    if seqs == [] then out
    else
      var window := out + seqs[0].literals;
      ExpandSeqs(seqs[1..], window + Repeated(window, seqs[0].offset, seqs[0].matchLen))
  }

  function Expand(b: Block): seq<Byte>
    requires Valid(b)
  {
    ExpandSeqs(b.seqs, []) + b.last
  }

  /** The bytes that extend a length field by n. */
  function Extension(n: nat): (r: seq<Byte>)
    ensures r != []
  {
    if n < 255 then [n] else [255] + Extension(n - 255)
  }

  /** A length in a four-bit field: full at 15, with extension bytes after the token. */
  function Nibble(n: nat): (r: Byte)
    ensures r < 16
  {
    Min(n, 15)
  }

  function Extra(n: nat): seq<Byte> {
    if n < 15 then [] else Extension(n - 15)
  }

  function Token(literals: nat, matchCode: nat): Byte {
    Nibble(literals) * 16 + Nibble(matchCode)
  }

  /** The bytes of a match: its offset and the extension of its length. */
  function EncodeMatch(offset: nat, matchLen: nat): seq<Byte>
    requires offset < 0x1_0000 && 4 <= matchLen
  {
    [offset % 0x100, offset / 0x100] + Extra(matchLen - 4)
  }

  function EncodeSeq(s: Seq): (r: seq<Byte>)
    requires s.offset < 0x1_0000 && 4 <= s.matchLen
  {
    [Token(|s.literals|, s.matchLen - 4)] + Extra(|s.literals|) + s.literals + EncodeMatch(s.offset, s.matchLen)
  }

  function EncodeLast(literals: seq<Byte>): seq<Byte> {
    [Token(|literals|, 0)] + Extra(|literals|) + literals
  }

  function EncodeSeqs(seqs: seq<Seq>, produced: nat, last: seq<Byte>): seq<Byte>
    requires ValidSeqs(seqs, produced)
    decreases |seqs|
  {
    if seqs == [] then EncodeLast(last)
    else EncodeSeq(seqs[0]) + EncodeSeqs(seqs[1..], produced + |seqs[0].literals| + seqs[0].matchLen, last)
  }

  function Encode(b: Block): seq<Byte>
    requires Valid(b)
  {
    MAGIC + EncodeSeqs(b.seqs, 0, b.last)
  }

  // ── Decoding an encoding ───────────────────────────────────────────────

  /** Lengths are 32-bit. */
  function Wrapped(n: nat): u32 { n % 0x1_0000_0000 }

  lemma {:induction false} ExtensionRead(n: nat, len: u32, tail: seq<Byte>)
    ensures Extend(Extension(n) + tail, len) == Some(Read(Wrapped(len + n), tail))
    decreases n
  {
    var all := Extension(n) + tail;
    if n < 255 {
      assert all[1..] == tail;
    } else {
      assert all[1..] == Extension(n - 255) + tail;
      ExtensionRead(n - 255, Wrapped(len + 255), tail);
      WrapTwice(len + 255, n - 255);
    }
  }

  lemma WrapTwice(a: nat, b: nat)
    ensures Wrapped(Wrapped(a) + b) == Wrapped(a + b)
  {
  }

  lemma WrapSmall(n: nat)
    ensures Wrapped(n) == n <==> n < 0x1_0000_0000
    ensures Wrapped(n) <= n
  {
  }

  /** A length field with its extension bytes reads back, of any size, wrapped at 32 bits. */
  lemma LengthRead(n: nat, tail: seq<Byte>, base: nat)
    requires base <= 4
    ensures Length(Extra(n) + tail, Nibble(n) + base, 15 + base) == Some(Read(Wrapped(n + base), tail))
  {
    if n < 15 {
      assert Extra(n) + tail == tail;
      WrapSmall(n + base);
    } else {
      ExtensionRead(n - 15, 15 + base, tail);
    }
  }

  lemma {:induction false} CopyStops(out: seq<Byte>, offset: nat, n: nat)
    ensures CopyMatch(out, offset, n, |out|) == out
  {
  }

  /** Byte-by-byte copying is periodic repetition, cut to the room there is. */
  lemma {:induction false} CopyRepeats(window: seq<Byte>, offset: nat, done: nat, n: nat, cap: nat)
    requires 0 < offset <= |window| && |window| + done <= cap
    ensures CopyMatch(window + Repeated(window, offset, done), offset, n, cap) ==
            Take(window + Repeated(window, offset, done + n), cap)
    decreases n
  {
    var out := window + Repeated(window, offset, done);
    if n == 0 {
    } else if |out| >= cap {
      assert Take(window + Repeated(window, offset, done + n), cap) == out;
    } else {
      RepeatedGrows(window, offset, done);
      CopyRepeats(window, offset, done + 1, n - 1, cap);
    }
  }

  lemma RepeatedGrows(window: seq<Byte>, offset: nat, k: nat)
    requires 0 < offset <= |window|
    ensures var out := window + Repeated(window, offset, k);
            out + [out[|out| - offset]] == window + Repeated(window, offset, k + 1)
  {
    Periodic(window, offset, k);
  }

  /** The byte offset positions back is the next one of the repetition. */
  lemma Periodic(window: seq<Byte>, offset: nat, k: nat)
    requires 0 < offset <= |window|
    ensures var out := window + Repeated(window, offset, k);
            out[|out| - offset] == window[|window| - offset + k % offset]
  {
    if k >= offset {
      assert (k - offset) % offset == k % offset by { ModBack(k, offset); }
    } else {
      assert k % offset == k;
    }
  }

  lemma TakeMore<T>(a: seq<T>, b: seq<T>, cap: nat)
    requires a <= b && |a| >= cap
    ensures Take(a, cap) == Take(b, cap)
  {
  }

  lemma TakeAll<T>(a: seq<T>, cap: nat)
    requires |a| <= cap
    ensures Take(a, cap) == a
  {
  }

  /** Literals copied as far as there is room. */
  lemma TakeAppend<T>(out: seq<T>, more: seq<T>, tail: seq<T>, cap: nat)
    requires |out| < cap
    ensures out + (more + tail)[..Min(|more|, cap - |out|)] == Take(out + more, cap)
  {
  }

  /** A match repeats as many bytes as its length says modulo 2^32. */
  lemma MatchDecodes(offset: nat, matchLen: nat, tail: seq<Byte>, window: seq<Byte>, cap: nat)
    requires 1 <= offset <= |window| && offset < 0x1_0000 && 4 <= matchLen
    ensures Match(EncodeMatch(offset, matchLen) + tail, Nibble(matchLen - 4), Take(window, cap), cap)
            == Continue(tail, Take(window + Repeated(window, offset, Wrapped(matchLen)), cap))
  {
    hide Length, Repeated, Wrapped, Extra, CopyMatch, Take;
    var extra, n := Extra(matchLen - 4), Wrapped(matchLen);
    OffsetRead(offset, extra, tail);
    LengthRead(matchLen - 4, tail, 4);
    MatchCopied(window, offset, n, cap);
  }

  /** The two offset bytes of an encoded match and what follows them. */
  lemma OffsetRead(offset: nat, extra: seq<Byte>, tail: seq<Byte>)
    requires offset < 0x1_0000
    ensures var rest := [offset % 0x100, offset / 0x100] + extra + tail;
            Offset(rest[0], rest[1]) == offset && rest[2..] == extra + tail
  {
  }

  /** Copying a match into the part of a window that there is room for. */
  lemma MatchCopied(window: seq<Byte>, offset: nat, n: nat, cap: nat)
    requires 1 <= offset <= |window|
    ensures CopyMatch(Take(window, cap), offset, n, cap) == Take(window + Repeated(window, offset, n), cap)
  {
    hide Repeated;
    if |window| < cap {
      CopyRepeats(window, offset, 0, n, cap);
      NothingLast(window);
      TakeAll(window, cap);
    } else {
      CopyStops(Take(window, cap), offset, n);
      TakeMore(window, window + Repeated(window, offset, n), cap);
    }
  }

  /** With room for it, a match is expanded in full if and only if its length fits 32 bits. */
  lemma MatchExact(offset: nat, matchLen: nat, tail: seq<Byte>, window: seq<Byte>, cap: nat)
    requires 1 <= offset <= |window| && offset < 0x1_0000 && 4 <= matchLen && |window| + matchLen <= cap
    ensures (Match(EncodeMatch(offset, matchLen) + tail, Nibble(matchLen - 4), window, cap)
            == Continue(tail, window + Repeated(window, offset, matchLen))) <==> matchLen < 0x1_0000_0000
  {
    hide Match, EncodeMatch, Wrapped, Repeated;
    var n := Wrapped(matchLen);
    MatchDecodes(offset, matchLen, tail, window, cap);
    WrapSmall(matchLen);
    TakeAll(window, cap);
    TakeAll(window + Repeated(window, offset, n), cap);
  }

  /** Decoding one encoded sequence appends its literals and its match, as far as there is room. */
  lemma SequenceDecodes(s: Seq, tail: seq<Byte>, out: seq<Byte>, cap: nat)
    requires ValidSeq(s, |out|) && Short(s) && |out| < cap
    ensures var window := out + s.literals;
            Sequence(EncodeSeq(s) + tail, out, cap) == Continue(tail, Take(window + Repeated(window, s.offset, s.matchLen), cap))
  {
    hide Length, Match, Repeated, Take, Extra, EncodeMatch, Wrapped;
    var lits := s.literals;
    var after := EncodeMatch(s.offset, s.matchLen) + tail;
    var all := EncodeSeq(s) + tail;
    assert all[1..] == Extra(|lits|) + (lits + after);
    LengthRead(|lits|, lits + after, 0);
    WrapSmall(|lits|);
    WrapSmall(s.matchLen);
    assert (lits + after)[|lits|..] == after;
    TakeAppend(out, lits, after, cap);
    MatchDecodes(s.offset, s.matchLen, tail, out + lits, cap);
  }

  lemma LastDecodes(last: seq<Byte>, out: seq<Byte>, cap: nat)
    requires |last| < 0x1_0000_0000 && |out| < cap
    ensures Sequence(EncodeLast(last), out, cap) == Stop(Take(out + last, cap))
  {
    hide Length, Match, Take, Extra, Wrapped;
    assert EncodeLast(last)[1..] == Extra(|last|) + last;
    LengthRead(|last|, last, 0);
    WrapSmall(|last|);
    TakeAppend(out, last, [], cap);
    assert last + [] == last;
  }

  lemma {:induction false} BlockDecodes(seqs: seq<Seq>, out: seq<Byte>, last: seq<Byte>, cap: nat)
    requires ValidSeqs(seqs, |out|) && AllShort(seqs, last)
    ensures Decode(EncodeSeqs(seqs, |out|, last), Take(out, cap), cap) == Finished(Take(ExpandSeqs(seqs, out) + last, cap))
    decreases |seqs|
  {
    hide Sequence, EncodeSeq, Repeated;
    if |out| >= cap {
      TakeMore(out, ExpandSeqs(seqs, out) + last, cap);
    } else if seqs == [] {
      LastDecodes(last, out, cap);
    } else {
      var s := seqs[0];
      var window := out + s.literals;
      var more := window + Repeated(window, s.offset, s.matchLen);
      SequenceDecodes(s, EncodeSeqs(seqs[1..], |more|, last), out, cap);
      BlockDecodes(seqs[1..], more, last, cap);
    }
  }

  /**
   Decoding the encoding of any valid block writes its expansion, cut to the
   size of the destination; a destination of the expanded size receives exactly
   the expansion.
   */
  lemma RoundTrip(b: Block, cap: nat)
    requires Valid(b) && AllShort(b.seqs, b.last)
    ensures Decompressed(Encode(b), cap) == Finished(Take(Expand(b), cap))
    ensures Decompressed(Encode(b), |Expand(b)|) == Finished(Expand(b))
  {
    hide Decode, EncodeSeqs, ExpandSeqs;
    assert Encode(b)[4..] == EncodeSeqs(b.seqs, 0, b.last);
    BlockDecodes(b.seqs, [], b.last, cap);
    BlockDecodes(b.seqs, [], b.last, |Expand(b)|);
  }

  // ── Lengths of 2^32 and more ───────────────────────────────────────────

  lemma {:induction false} CopyLength(out: seq<Byte>, offset: nat, n: nat, cap: nat)
    requires n > 0 && |out| < cap ==> 0 < offset <= |out|
    requires |out| <= cap
    ensures |CopyMatch(out, offset, n, cap)| <= |out| + n
    decreases n
  {
    if n > 0 && |out| < cap {
      CopyLength(out + [out[|out| - offset]], offset, n - 1, cap);
    }
  }

  /** A match adds fewer than 2^32 bytes, whatever is read. */
  lemma MatchLength(rest: seq<Byte>, nibble: Byte, out: seq<Byte>, cap: nat)
    requires |out| <= cap
    ensures match Match(rest, nibble, out, cap)
            case Continue(_, o) => |o| < |out| + WRAP
            case Stop(o) => |o| < |out| + WRAP
            case Overrun => true
  {
    hide Length, CopyMatch;
    if |rest| >= 2 && Offset(rest[0], rest[1]) != 0 {
      var m := Length(rest[2..], nibble + 4, 19);
      if m.Some? && !(m.value.len > 0 && |out| < cap && Offset(rest[0], rest[1]) > |out|) {
        CopyLength(out, Offset(rest[0], rest[1]), m.value.len, cap);
      }
    }
  }

  /** A run of 2^32 literals or more gives fewer bytes than it has, whatever the decoder makes of the literals it did not count. */
  lemma LongLiterals(head: Byte, lits: seq<Byte>, tail: seq<Byte>, out: seq<Byte>, cap: nat)
    requires |lits| >= WRAP && head / 16 == Nibble(|lits|) && |out| + |lits| <= cap
    ensures match Sequence([head] + Extra(|lits|) + lits + tail, out, cap)
            case Continue(_, o) => |o| < |out| + |lits|
            case Stop(o) => |o| < |out| + |lits|
            case Overrun => true
  {
    hide Length, Match, Extra, Nibble;
    var all := [head] + Extra(|lits|) + lits + tail;
    assert all[1..] == Extra(|lits|) + (lits + tail);
    LengthRead(|lits|, lits + tail, 0);
    var n := Wrapped(|lits|);
    WrappedBelow(|lits|);
    MatchLength((lits + tail)[n..], head % 16, out + (lits + tail)[..n], cap);
  }

  lemma WrappedBelow(n: nat)
    requires n >= WRAP
    ensures Wrapped(n) + WRAP <= n
  {
  }

  /** With room for it, a sequence decodes to itself if and only if both its lengths are below 2^32. */
  lemma SequenceExact(s: Seq, tail: seq<Byte>, out: seq<Byte>, cap: nat)
    requires ValidSeq(s, |out|) && |out| + |s.literals| + s.matchLen <= cap
    ensures var window := out + s.literals;
            Sequence(EncodeSeq(s) + tail, out, cap) == Continue(tail, window + Repeated(window, s.offset, s.matchLen)) <==> Short(s)
  {
    hide Length, Match, Repeated, Extra, EncodeMatch, Wrapped, Sequence, Nibble;
    var lits, after := s.literals, EncodeMatch(s.offset, s.matchLen) + tail;
    if |lits| >= WRAP {
      var head := Token(|lits|, s.matchLen - 4);
      assert EncodeSeq(s) + tail == [head] + Extra(|lits|) + lits + after;
      LongLiterals(head, lits, after, out, cap);
    } else {
      LiteralsRead(s, tail, out, cap);
      MatchExact(s.offset, s.matchLen, tail, out + lits, cap);
    }
  }

  /** Behind literals that were counted right comes the match. */
  lemma LiteralsRead(s: Seq, tail: seq<Byte>, out: seq<Byte>, cap: nat)
    requires ValidSeq(s, |out|) && |s.literals| < WRAP && |out| + |s.literals| < cap
    ensures Sequence(EncodeSeq(s) + tail, out, cap) ==
            Match(EncodeMatch(s.offset, s.matchLen) + tail, Nibble(s.matchLen - 4), out + s.literals, cap)
  {
    hide Length, Match, Extra, EncodeMatch, Wrapped;
    var lits, after := s.literals, EncodeMatch(s.offset, s.matchLen) + tail;
    var all := EncodeSeq(s) + tail;
    assert all[1..] == Extra(|lits|) + (lits + after);
    LengthRead(|lits|, lits + after, 0);
    WrapSmall(|lits|);
    assert (lits + after)[|lits|..] == after && (lits + after)[..|lits|] == lits;
    assert after != [] by { MatchBytes(s.offset, s.matchLen); }
  }

  lemma MatchBytes(offset: nat, matchLen: nat)
    requires offset < 0x1_0000 && 4 <= matchLen
    ensures |EncodeMatch(offset, matchLen)| >= 2
  {
  }

  lemma LastExact(last: seq<Byte>, out: seq<Byte>, cap: nat)
    requires |out| + |last| <= cap && |out| < cap
    ensures Sequence(EncodeLast(last), out, cap) == Stop(out + last) <==> |last| < WRAP
  {
    hide Sequence, Extra, Nibble;
    if |last| >= WRAP {
      assert EncodeLast(last) == [Token(|last|, 0)] + Extra(|last|) + last + [];
      LongLiterals(Token(|last|, 0), last, [], out, cap);
    } else {
      LastDecodes(last, out, cap);
      TakeAll(out + last, cap);
    }
  }

  /** The decoder keeps step: each sequence of the block, and the last literals, are read as what they encode. */
  predicate InStep(seqs: seq<Seq>, out: seq<Byte>, last: seq<Byte>, cap: nat)
    requires ValidSeqs(seqs, |out|) && |out| <= cap
    decreases |seqs|
  {
    if |out| == cap then true
    else if seqs == [] then Sequence(EncodeLast(last), out, cap) == Stop(out + last)
    else
      var s, window := seqs[0], out + seqs[0].literals;
      var more := window + Repeated(window, s.offset, s.matchLen);
      var tail := EncodeSeqs(seqs[1..], |more|, last);
      Sequence(EncodeSeq(s) + tail, out, cap) == Continue(tail, more) && |more| <= cap && InStep(seqs[1..], more, last, cap)
  }

  /** With room for the expansion, the decoder keeps step with a block if and only if every length is below 2^32. */
  lemma {:induction false} BlockExact(seqs: seq<Seq>, out: seq<Byte>, last: seq<Byte>, cap: nat)
    requires ValidSeqs(seqs, |out|) && |ExpandSeqs(seqs, out) + last| <= cap
    ensures |out| <= cap && (InStep(seqs, out, last, cap) <==> AllShort(seqs, last))
    decreases |seqs|
  {
    hide Sequence, EncodeSeq, Repeated, Short;
    if seqs == [] {
      if |out| < cap {
        LastExact(last, out, cap);
      }
    } else {
      var s, window := seqs[0], out + seqs[0].literals;
      var more := window + Repeated(window, s.offset, s.matchLen);
      SequenceExact(s, EncodeSeqs(seqs[1..], |more|, last), out, cap);
      BlockExact(seqs[1..], more, last, cap);
      assert AllShort(seqs, last) <==> Short(s) && AllShort(seqs[1..], last) by {
        assert forall k :: 1 <= k < |seqs| ==> seqs[k] == seqs[1..][k - 1];
      }
    }
  }

  // ── A wrap that goes unnoticed ─────────────────────────────────────────

  function Ones(n: nat): (r: seq<Byte>)
    ensures |r| == n
  {
    seq(n, k => 1)
  }

  lemma OnesJoin(m: nat, n: nat)
    ensures Ones(m) + Ones(n) == Ones(m + n)
  {
  }

  lemma OnesRepeated(m: nat, offset: nat, n: nat)
    requires 0 < offset <= m
    ensures Ones(m) + Repeated(Ones(m), offset, n) == Ones(m + n)
  {
  }

  lemma OnesTaken(m: nat, cap: nat)
    ensures Take(Ones(m), cap) == Ones(Min(m, cap))
  {
  }

  /** Literals of one read as a token and an offset: a match of five ones. */
  lemma OnesStep(n: nat, tail: seq<Byte>, m: nat, cap: nat)
    requires n >= 3 && 257 <= m < cap
    ensures Sequence(Ones(n) + tail, Ones(m), cap) == Continue(Ones(n - 3) + tail, Ones(Min(m + 5, cap)))
  {
    hide CopyMatch, Repeated, Take;
    var all := Ones(n) + tail;
    assert all[1..][0..] == all[1..] && all[1..][2..] == Ones(n - 3) + tail;
    assert Ones(m) + all[1..][..0] == Ones(m);
    MatchCopied(Ones(m), 257, 5, cap);
    OnesRepeated(m, 257, 5);
    OnesTaken(m, cap);
    OnesTaken(m + 5, cap);
  }

  /** Enough of them fill the destination with ones. */
  lemma {:induction false} OnesFill(n: nat, tail: seq<Byte>, m: nat, cap: nat)
    requires 257 <= m <= cap && (m == cap || 3 * (cap - m) + 12 <= 5 * n)
    ensures Decode(Ones(n) + tail, Ones(m), cap) == Finished(Ones(cap))
    decreases n
  {
    hide Sequence;
    if m < cap {
      OnesStep(n, tail, m, cap);
      assert Ones(n) + tail != [];
      OnesFill(n - 3, tail, Min(m + 5, cap), cap);
    }
  }

  /** Ones throughout: a sequence, and one with a run of 2^32 literals. */
  const FEW := Seq(Ones(257), 1, 4)
  const MANY := Seq(Ones(WRAP), 1, 4)
  const UNNOTICED := Block([FEW, MANY], [])

  lemma {:induction false} OnesExpand(s: Seq, m: nat)
    requires (s == FEW && m == 0) || (s == MANY && m == 261)
    ensures ValidSeq(s, m)
    ensures var window := Ones(m) + s.literals; window + Repeated(window, s.offset, s.matchLen) == Ones(m + |s.literals| + 4)
  {
    hide Repeated, Ones;
    OnesJoin(m, |s.literals|);
    OnesRepeated(m + |s.literals|, 1, 4);
  }

  lemma UnnoticedExpands()
    ensures Valid(UNNOTICED) && Expand(UNNOTICED) == Ones(265 + WRAP)
    ensures Encode(UNNOTICED)[4..] == EncodeSeq(FEW) + (EncodeSeq(MANY) + EncodeLast([]))
  {
    hide Repeated, Ones, EncodeSeq, EncodeLast;
    OnesExpand(FEW, 0);
    OnesExpand(MANY, 261);
    NothingLast(Ones(265 + WRAP));
    assert Ones(0) == [];
    var seqs := UNNOTICED.seqs;
    assert seqs[1..] == [MANY] && seqs[1..][1..] == [];
    assert ExpandSeqs([], Ones(265 + WRAP)) == Ones(265 + WRAP);
    assert ExpandSeqs([MANY], Ones(261)) == Ones(265 + WRAP);
    assert ExpandSeqs(seqs, []) == Ones(265 + WRAP);
    assert EncodeSeqs([], 265 + WRAP, []) == EncodeLast([]);
    assert EncodeSeqs([MANY], 261, []) == EncodeSeq(MANY) + EncodeLast([]);
    assert Encode(UNNOTICED)[4..] == EncodeSeqs(seqs, 0, []);
  }

  /** The decoder counts no literals of the long run and reads the first two as an offset. */
  lemma StepLost(tail: seq<Byte>, cap: nat)
    requires cap >= 265
    ensures Sequence(EncodeSeq(MANY) + tail, Ones(261), cap) ==
            Continue(Ones(WRAP - 2) + (EncodeMatch(1, 4) + tail), Ones(265))
  {
    hide Length, Match, Extra, EncodeMatch, Ones;
    var lits := Ones(WRAP) + (EncodeMatch(1, 4) + tail);
    var all := EncodeSeq(MANY) + tail;
    assert all[1..] == Extra(WRAP) + lits;
    LengthRead(WRAP, lits, 0);
    assert lits[0..] == lits;
    NothingLast(Ones(261));
    OnesMatched(EncodeMatch(1, 4) + tail, cap);
  }

  lemma OnesMatched(after: seq<Byte>, cap: nat)
    requires cap >= 265
    ensures Match(Ones(WRAP) + after, 0, Ones(261), cap) == Continue(Ones(WRAP - 2) + after, Ones(265))
  {
    hide Length, CopyMatch, Extra, Repeated;
    var lits := Ones(WRAP) + after;
    assert lits[2..] == Ones(WRAP - 2) + after;
    LengthRead(0, lits[2..], 4);
    NothingExtra(lits[2..]);
    MatchCopied(Ones(261), 257, 4, cap);
    OnesRepeated(261, 257, 4);
    OnesTaken(261, cap);
    OnesTaken(265, cap);
  }

  lemma NothingExtra(rest: seq<Byte>)
    ensures Extra(0) + rest == rest
  {
  }

  /**
   The bytes alone do not tell: this block has a run of 2^32 literals, the decoder
   loses step at it, and the destination still receives exactly the expansion.
   */
  lemma WrapUnnoticed()
    ensures Valid(UNNOTICED) && !AllShort(UNNOTICED.seqs, UNNOTICED.last)
    ensures Decompressed(Encode(UNNOTICED), |Expand(UNNOTICED)|) == Finished(Expand(UNNOTICED))
    ensures !InStep(UNNOTICED.seqs, [], [], |Expand(UNNOTICED)|)
  {
    hide Sequence, EncodeSeq, EncodeLast, Repeated, Ones, InStep, EncodeSeqs, ExpandSeqs, Take;
    var cap, tail := 265 + WRAP, EncodeLast([]);
    UnnoticedExpands();
    OnesExpand(FEW, 0);
    SequenceDecodes(FEW, EncodeSeq(MANY) + tail, Ones(0), cap);
    OnesTaken(261, cap);
    StepLost(tail, cap);
    OnesFill(WRAP - 2, EncodeMatch(1, 4) + tail, 265, cap);
    assert Ones(0) == [];
    var rest := EncodeSeq(MANY) + tail;
    assert Sequence(EncodeSeq(FEW) + rest, [], cap) == Continue(rest, Ones(261));
    assert Decode(rest, Ones(261), cap) == Finished(Ones(cap));
    assert Decode(EncodeSeq(FEW) + rest, [], cap) == Finished(Ones(cap));
    assert Short(FEW) && !Short(MANY) && UNNOTICED.seqs[1] == MANY;
    BlockExact(UNNOTICED.seqs, [], [], cap);
  }
}
