/**
 From shader binaries to SPIR-V: what decoding keeps of the words, when cutting
 a shader at its first EXIT word loses nothing, and what the emitted code
 computes in terms of the words' fields.
 */
module BinaryToSpirv {
  import opened Arithmetic
  import opened Common
  import opened Sequences
  import opened Spirv
  import opened ShaderIr
  import opened EmitterSpec
  import opened SpirvMachine
  import opened MaxwellDecoder
  import EmitterIds
  import opened SemanticPreservation

  // ── Program counters ───────────────────────────────────────────────────

  /** Strictly increasing multiples of eight, from lo on, each with its whole word in range. */
  ghost predicate Ascending(insts: seq<IrInst>, lo: nat, size: nat) {
    && (forall k :: 0 <= k < |insts| ==> lo <= insts[k].pc && insts[k].pc % 8 == 0 && insts[k].pc + 8 <= size)
    && (forall j, k :: 0 <= j < k < |insts| ==> insts[j].pc < insts[k].pc)
  }

  lemma PcOfIr(d: Decoded)
    ensures ToIr(d).pc == d.pc && ToIr(d).opcode == d.opcode
  {
  }

  lemma AscendingCons(i: IrInst, rest: seq<IrInst>, lo: nat, lo': nat, size: nat)
    requires Ascending(rest, lo', size) && lo <= i.pc < lo' && i.pc % 8 == 0 && i.pc + 8 <= size
    ensures Ascending([i] + rest, lo, size)
  {
  }

  lemma SizeIsWords(data: seq<Byte>, pc: u32)
    ensures DecodedAt(data, pc).size == 8 || DecodedAt(data, pc).size == 16
  {
  }

  /** Decoding yields strictly increasing, aligned program counters inside the data. */
  lemma {:induction false} PcsAscend(data: seq<Byte>, pc: nat)
    requires |data| + 8 < 0x1_0000_0000 && pc % 8 == 0
    ensures Ascending(DecodeFrom(data, pc), pc, |data|)
    decreases |data| - pc
  {
    hide DecodedAt, ToIr, Ascending;
    if pc >= |data| {
      assert Ascending([], pc, |data|) by { NoneAscend(pc, |data|); }
    } else {
      var d := DecodedAt(data, pc);
      SizeIsWords(data, pc);
      PcOfIr(d);
      if d.format == Unknown {
        PcsAscend(data, pc + 8);
        AscendWeaken(DecodeFrom(data, pc + 8), pc, pc + 8, |data|);
      } else if d.opcode == Ctl(EXIT) {
        NoneAscend(pc + 8, |data|);
        AscendingCons(ToIr(d), [], pc, pc + 8, |data|);
        assert [ToIr(d)] + [] == [ToIr(d)];
      } else {
        PcsAscend(data, pc + d.size);
        AscendingCons(ToIr(d), DecodeFrom(data, pc + d.size), pc, pc + d.size, |data|);
      }
    }
  }

  lemma NoneAscend(lo: nat, size: nat)
    ensures Ascending([], lo, size)
  {
  }

  lemma AscendWeaken(insts: seq<IrInst>, lo: nat, lo': nat, size: nat)
    requires Ascending(insts, lo', size) && lo <= lo'
    ensures Ascending(insts, lo, size)
  {
  }

  /** Decoded programs meet the emitter's requirement for unique ids. */
  lemma DecodedIncreasing(data: seq<Byte>)
    requires |data| + 8 < 0x1_0000_0000
    ensures EmitterIds.Increasing(DecodeFrom(data, 0))
  {
    hide DecodeFrom;
    PcsAscend(data, 0);
  }

  // ── Cutting at the first EXIT ──────────────────────────────────────────

  /** The decoder, starting at pc, decodes an instruction at the given position. */
  predicate Reaches(data: seq<Byte>, pc: nat, target: nat)
    requires |data| + 8 < 0x1_0000_0000
    decreases |data| - pc
  {
    pc == target || (pc < target && pc < |data| && Reaches(data, pc + DecodedAt(data, pc).size, target))
  }

  /** No word from position i on is known. */
  predicate NothingKnown(data: seq<Byte>, i: nat)
    decreases |data| - i
  {
    i + 8 > |data| || (FormatOf(OpcodeId(WordAt(data, i))) == Unknown && NothingKnown(data, i + 8))
  }

  lemma {:induction false} NothingDecoded(data: seq<Byte>, i: nat)
    requires |data| + 8 < 0x1_0000_0000
    ensures DecodeFrom(data, i) == [] <==> NothingKnown(data, i)
    decreases |data| - i
  {
    hide ToIr, FieldsOf;
    if i < |data| {
      NothingDecoded(data, i + 8);
      if i + 8 <= |data| {
        assert DecodedAt(data, i).format == FormatOf(OpcodeId(WordAt(data, i)));
      }
    }
  }

  lemma SameWord(data: seq<Byte>, end: nat, pc: nat)
    requires pc + 8 <= end <= |data|
    ensures WordAt(data[..end], pc) == WordAt(data, pc)
  {
    assert data[..end][pc..pc + 8] == data[pc..pc + 8];
  }

  /** The first EXIT word, at a multiple of eight. */
  ghost predicate FirstExit(data: seq<Byte>, e: nat) {
    e % 8 == 0 && ExitSlot(data, e) && forall i :: 0 <= i < e && i % 8 == 0 ==> !ExitSlot(data, i)
  }

  lemma ExitWord(data: seq<Byte>, pc: nat)
    requires |data| + 8 < 0x1_0000_0000 && pc + 8 <= |data|
    ensures ExitSlot(data, pc) <==> DecodedAt(data, pc).opcode == Ctl(EXIT) && DecodedAt(data, pc).format == Exit
    ensures DecodedAt(data, pc).opcode == Ctl(EXIT) ==> ExitSlot(data, pc)
  {
    hide FieldsOf;
  }

  /** One step of the decoder. */
  lemma DecodeStep(data: seq<Byte>, pc: nat)
    requires |data| + 8 < 0x1_0000_0000 && pc < |data|
    ensures var d := DecodedAt(data, pc);
            DecodeFrom(data, pc) ==
            (if d.format == Unknown then [] else [ToIr(d)])
            + (if d.format != Unknown && d.opcode == Ctl(EXIT) then [] else DecodeFrom(data, pc + d.size))
  {
    hide ToIr, DecodedAt;
    UnknownSize(data, pc);
  }

  /** Before the first EXIT, the decoder sees the same instruction in the cut data and goes on. */
  lemma CutStep(data: seq<Byte>, e: nat, pc: nat) returns (first: seq<IrInst>, next: nat)
    requires |data| + 8 < 0x1_0000_0000 && FirstExit(data, e) && pc % 8 == 0 && pc < e && e + 8 <= |data|
    ensures pc < next <= e + 8 && next % 8 == 0 && (Reaches(data, pc, e) <==> Reaches(data, next, e))
    ensures DecodeFrom(data, pc) == first + DecodeFrom(data, next)
    ensures DecodeFrom(data[..e + 8], pc) == first + DecodeFrom(data[..e + 8], next)
  {
    hide ToIr, DecodedAt, ExitSlot, DecodeFrom, FirstExit;
    FirstIsExit(data, e);
    NoExitBefore(data, e, pc);
    SameDecoded(data, e + 8, pc);
    SizeIsWords(data, pc);
    DecodeStep(data, pc);
    DecodeStep(data[..e + 8], pc);
    var d := DecodedAt(data, pc);
    first, next := if d.format == Unknown then [] else [ToIr(d)], pc + d.size;
  }

  /** Decoding from the first EXIT itself gives just that instruction, cut or not. */
  lemma CutAtExit(data: seq<Byte>, e: nat)
    requires |data| + 8 < 0x1_0000_0000 && ExitSlot(data, e) && e + 8 <= |data|
    ensures DecodeFrom(data[..e + 8], e) == DecodeFrom(data, e)
  {
    hide ToIr, DecodedAt, ExitSlot, DecodeFrom;
    ExitWord(data, e);
    SameDecoded(data, e + 8, e);
    DecodeStep(data, e);
    DecodeStep(data[..e + 8], e);
  }

  /**
   Decoding the data cut after its first EXIT, from any position up to it: the
   same instructions when the EXIT is reached, and otherwise all those the
   decoder finds before the cut.
   */
  lemma {:induction false} CutDecodes(data: seq<Byte>, e: nat, pc: nat)
    requires |data| + 8 < 0x1_0000_0000 && FirstExit(data, e) && pc % 8 == 0 && pc <= e + 8 && e + 8 <= |data|
    ensures Reaches(data, pc, e) ==> DecodeFrom(data[..e + 8], pc) == DecodeFrom(data, pc)
    ensures !Reaches(data, pc, e) ==> DecodeFrom(data, pc) == DecodeFrom(data[..e + 8], pc) + DecodeFrom(data, e + 8)
    decreases e + 8 - pc
  {
    hide DecodeFrom, FirstExit, ExitSlot;
    FirstIsExit(data, e);
    if pc < e {
      hide Reaches;
      var first, next := CutStep(data, e, pc);
      CutDecodes(data, e, next);
      var a, b := DecodeFrom(data[..e + 8], next), DecodeFrom(data, e + 8);
      Associative(first, a, b);
    } else if pc == e {
      CutAtExit(data, e);
    } else {
      DecodeEnd(data[..e + 8], e + 8);
      NothingFirst(DecodeFrom(data, e + 8));
    }
  }

  lemma NoExitBefore(data: seq<Byte>, e: nat, pc: u32)
    requires FirstExit(data, e) && pc < e && pc % 8 == 0 && |data| + 8 < 0x1_0000_0000 && e + 8 <= |data|
    ensures DecodedAt(data, pc).opcode != Ctl(EXIT)
  {
    hide ExitSlot, DecodedAt;
    ExitWord(data, pc);
  }

  lemma FirstIsExit(data: seq<Byte>, e: nat)
    requires FirstExit(data, e)
    ensures ExitSlot(data, e) && e % 8 == 0
  {
  }

  lemma DecodeEnd(data: seq<Byte>, pc: nat)
    requires |data| + 8 < 0x1_0000_0000 && |data| <= pc
    ensures DecodeFrom(data, pc) == []
  {
  }

  lemma ExitInside(data: seq<Byte>, e: nat)
    requires ExitSlot(data, e) || FirstExit(data, e)
    ensures e + 8 <= |data|
  {
  }

  lemma SameDecoded(data: seq<Byte>, end: nat, pc: u32)
    requires pc + 8 <= end <= |data|
    ensures DecodedAt(data[..end], pc) == DecodedAt(data, pc)
  {
    hide DecodeWord;
    SameWord(data, end, pc);
  }

  lemma UnknownSize(data: seq<Byte>, pc: u32)
    ensures DecodedAt(data, pc).format == Unknown ==> DecodedAt(data, pc).size == 8
  {
    hide FieldsOf;
  }

  lemma {:induction false} CutAtFirstExit(data: seq<Byte>, i: nat, e: nat)
    requires FirstExit(data, e) && i % 8 == 0 && i <= e
    ensures CutEnd(data, i) == e + 8
    decreases e - i
  {
    hide WordAt;
    if i < e {
      CutAtFirstExit(data, i + 8, e);
    }
  }

  lemma {:induction false} NoExitNoCut(data: seq<Byte>, i: nat)
    requires i % 8 == 0 && forall k :: k % 8 == 0 && i <= k ==> !ExitSlot(data, k)
    ensures CutEnd(data, i) == |data|
    decreases |data| - i
  {
    if i + 8 <= |data| {
      NoExitNoCut(data, i + 8);
    }
  }

  /**
   Cutting a shader at its first EXIT word keeps its decoded instructions if
   and only if that word is decoded as an instruction, or no word after it is
   known. The exception is an EXIT that is the second half of a memory or
   texture instruction.
   */
  lemma CutExact(data: seq<Byte>, e: nat)
    requires |data| + 8 < 0x1_0000_0000 && FirstExit(data, e)
    ensures DecodeFrom(Cut(data), 0) == DecodeFrom(data, 0) <==> Reaches(data, 0, e) || NothingKnown(data, e + 8)
  {
    hide DecodeFrom, Reaches, NothingKnown, CutEnd, ExitSlot;
    CutAtFirstExit(data, 0, e);
    ExitInside(data, e);
    CutDecodes(data, e, 0);
    NothingDecoded(data, e + 8);
    var a, b := DecodeFrom(data[..e + 8], 0), DecodeFrom(data, e + 8);
    assert a == a + b ==> |b| == 0;
  }

  /** No memory or texture instruction word at the positions from i up to e. */
  predicate NoWideWord(data: seq<Byte>, i: nat, e: nat)
    decreases e - i
  {
    i >= e || i + 8 > |data| || (!Wide(FormatOf(OpcodeId(WordAt(data, i)))) && NoWideWord(data, i + 8, e))
  }

  lemma {:induction false} NarrowReaches(data: seq<Byte>, pc: nat, e: nat)
    requires |data| + 8 < 0x1_0000_0000 && pc % 8 == 0 && e % 8 == 0 && pc <= e && e + 8 <= |data| && NoWideWord(data, pc, e)
    ensures Reaches(data, pc, e)
    decreases e - pc
  {
    hide WordAt, FieldsOf, OpcodeId;
    if pc < e {
      NarrowReaches(data, pc + 8, e);
    }
  }

  /** With no memory or texture word before the first EXIT, the cut shader decodes to the same instructions. */
  lemma CutFaithful(data: seq<Byte>, e: nat)
    requires |data| + 8 < 0x1_0000_0000 && FirstExit(data, e) && NoWideWord(data, 0, e)
    ensures DecodeFrom(Cut(data), 0) == DecodeFrom(data, 0)
  {
    hide DecodeFrom, Reaches, NothingKnown, CutEnd, ExitSlot, NoWideWord;
    assert e + 8 <= |data| by { ExitInside(data, e); }
    NarrowReaches(data, 0, e);
    CutExact(data, e);
  }

  lemma {:induction false} ZeroBytes(bytes: seq<Byte>)
    requires forall k :: 0 <= k < |bytes| ==> bytes[k] == 0
    ensures LittleEndian(bytes) == 0
  {
    if bytes != [] {
      ZeroBytes(bytes[1..]);
    }
  }

  /** The opcode number of a word whose only nonzero byte is its second. */
  lemma LowWord(b: Byte, data: seq<Byte>, pc: nat)
    requires pc + 8 <= |data| && data[pc..pc + 8] == SecondByte(b) && b < 0x20
    ensures OpcodeId(WordAt(data, pc)) == b * 8
  {
    var w: seq<Byte> := data[pc..pc + 8];
    ZeroBytes(w[2..]);
    assert w[1..][1..] == w[2..];
    assert LittleEndian(w[1..]) == b;
    assert WordAt(data, pc) == b * 0x100;
    assert Pow2(5) == 32 && Pow2(8) == 256;
  }

  /** A word with only its second byte set. */
  function SecondByte(b: Byte): (w: seq<Byte>)
    ensures |w| == 8
  {
    [0, b, 0, 0, 0, 0, 0, 0]
  }

  /** A texture fetch whose second word looks like an EXIT: the cut loses the EXIT after it. */
  lemma CutCanLose()
    ensures var data := SecondByte(0x0C) + SecondByte(0x10) + SecondByte(0x10);
            DecodeFrom(Cut(data), 0) != DecodeFrom(data, 0)
  {
    hide *;
    var tex, exit := SecondByte(0x0C), SecondByte(0x10);
    var data := tex + exit + exit;
    ThreeWords(tex, exit, exit);
    LowWord(0x0C, data, 0);
    LowWord(0x10, data, 8);
    LowWord(0x10, data, 16);
    LostWhenSkipped(data);
  }

  lemma ThreeWords(a: seq<Byte>, b: seq<Byte>, c: seq<Byte>)
    requires |a| == |b| == |c| == 8
    ensures (a + b + c)[0..8] == a && (a + b + c)[8..16] == b && (a + b + c)[16..24] == c
  {
  }

  lemma LostWhenSkipped(data: seq<Byte>)
    requires |data| == 24 && OpcodeId(WordAt(data, 0)) == 0x60
    requires OpcodeId(WordAt(data, 8)) == 0x80 && OpcodeId(WordAt(data, 16)) == 0x80
    ensures DecodeFrom(Cut(data), 0) != DecodeFrom(data, 0)
  {
    hide DecodeFrom, WordAt, OpcodeId, FieldsOf, CutEnd;
    assert DecodedAt(data, 0).size == 16;
    assert !Reaches(data, 0, 8);
    assert !NothingKnown(data, 16);
    CutExact(data, 8);
  }

  // ── Meaning of the words ───────────────────────────────────────────────

  /** The words with a scalar meaning: no memory, texture, comparison, shift or exponent. */
  predicate ScalarId(id: nat) {
    id <= 0x09 || 0x10 <= id <= 0x16 || 0x18 <= id <= 0x19 || 0x20 <= id <= 0x21
  }

  /** No negation, absolute value or saturation is asked for, and the multi-function unit does what it names. */
  predicate Unmodified(w: nat) {
    var id := OpcodeId(w);
    if FormatOf(id) == Alu1In then id == 0x06 ==> ScalarMufu(Bits(w, 54, 51))
    else
      !Bit(w, 45) && !Bit(w, 46) && !Bit(w, 47) && !Bit(w, 49) && (FormatOf(id) == Alu3In ==> !Bit(w, 48))
  }

  predicate ScalarWord(w: nat) {
    ScalarId(OpcodeId(w)) && Unmodified(w)
  }

  /** The word a scalar instruction word computes from its three source fields. */
  function WordValue(fp: FloatOps, w: nat, a: u32, b: u32, c: u32): u32
    requires ScalarWord(w)
  {
    var id := OpcodeId(w);
    if id == 0x00 then fp.add(fp.mul(a, b), c)
    else if id == 0x01 then fp.add(a, b)
    else if id == 0x02 then fp.mul(a, b)
    else if id == 0x03 then fp.max(a, b)
    else if id == 0x04 then fp.min(a, b)
    else if id == 0x05 then fp.clamp(a, 0, ONE_F32)
    else if id == 0x06 then MufuValue(fp, Bits(w, 54, 51), a)
    else if id == 0x07 then fp.div(ONE_F32, a)
    else if id == 0x08 then fp.invSqrt(a)
    else if id == 0x09 then fp.sqrt(a)
    else if id == 0x10 then Add32(Add32(a, b), c)
    else if id == 0x11 then Add32(Mul32(a, b), c)
    else if id == 0x12 then Add32(a, b)
    else if id == 0x13 then Sub32(a, b)
    else if id == 0x14 then Mul32(a, b)
    else if id == 0x15 then Abs32(a)
    else if id == 0x16 then Neg32(a)
    else if id == 0x18 then fp.fromSigned(a)
    else if id == 0x21 then fp.toSigned(a)
    else a
  }

  /** Bits 44 to 39 name the destination; bits 19 to 13, 26 to 20 and 33 to 27 the sources. */
  function WordStep(fp: FloatOps, regs: Regs, w: nat): Regs
    requires ScalarWord(w)
  {
    regs[Bits(w, 44, 39) := WordValue(fp, w, regs[Bits(w, 19, 13)], regs[Bits(w, 26, 20)], regs[Bits(w, 33, 27)])]
  }

  /** An unguarded register-to-register instruction with the fields of a word. */
  ghost predicate FromFields(i: IrInst, w: nat, op: Opcode, n: nat, mufu: nat) {
    && i.opcode == op && i.srcCount == n && !i.guard && i.dest == Register(Bits(w, 44, 39))
    && i.src0 == Register(Bits(w, 19, 13)).(mufu := mufu)
    && (n >= 2 ==> i.src1 == Register(Bits(w, 26, 20))) && (n >= 3 ==> i.src2 == Register(Bits(w, 33, 27)))
  }

  lemma Alu3Fields(w: nat, pc: u32)
    requires FormatOf(OpcodeId(w)) == Alu3In && Unmodified(w)
    ensures FromFields(ToIr(DecodeWord(w, pc)), w, Alu3Opcode(OpcodeId(w)), 3, MUFU_SIN)
  {
    hide OpcodeId, Bits, Bit;
  }

  lemma Alu2Fields(w: nat, pc: u32)
    requires FormatOf(OpcodeId(w)) == Alu2In && Unmodified(w)
    ensures FromFields(ToIr(DecodeWord(w, pc)), w, Alu2Opcode(OpcodeId(w)), 2, MUFU_SIN)
  {
    hide OpcodeId, Bits, Bit;
  }

  lemma Alu1Fields(w: nat, pc: u32)
    requires FormatOf(OpcodeId(w)) == Alu1In
    ensures var op := Alu1Opcode(OpcodeId(w));
            FromFields(ToIr(DecodeWord(w, pc)), w, op, 1, if op == Flt(MUFU) then Bits(w, 54, 51) else MUFU_SIN)
  {
    hide OpcodeId, Bits, Bit;
  }

  /** The instruction's value of any source words is the word's, and it reads no more than it has. */
  ghost predicate Agrees(fp: FloatOps, w: nat, op: Opcode, n: nat, mufu: nat)
    requires ScalarWord(w)
  {
    0 < Arity(op, mufu) <= n && forall a, b, c :: Value(fp, op, mufu, a, b, c) == WordValue(fp, w, a, b, c)
  }

  lemma Alu3Agrees(fp: FloatOps, w: nat)
    requires ScalarWord(w) && FormatOf(OpcodeId(w)) == Alu3In
    ensures Agrees(fp, w, Alu3Opcode(OpcodeId(w)), 3, MUFU_SIN)
  {
    hide OpcodeId, Bits, Unmodified, Add32, Mul32;
  }

  lemma Alu2Agrees(fp: FloatOps, w: nat)
    requires ScalarWord(w) && FormatOf(OpcodeId(w)) == Alu2In
    ensures Agrees(fp, w, Alu2Opcode(OpcodeId(w)), 2, MUFU_SIN)
  {
    hide OpcodeId, Bits, Unmodified, Add32, Mul32, Sub32, Abs32, Neg32;
  }

  lemma Alu1Agrees(fp: FloatOps, w: nat)
    requires ScalarWord(w) && FormatOf(OpcodeId(w)) == Alu1In
    ensures var op := Alu1Opcode(OpcodeId(w));
            Agrees(fp, w, op, 1, if op == Flt(MUFU) then Bits(w, 54, 51) else MUFU_SIN)
  {
    hide OpcodeId, Bits, MufuValue;
  }

  /** An instruction with a word's fields and value has the word's effect, whatever the unread sources are. */
  lemma FieldsAndValue(fp: FloatOps, i: IrInst, w: nat, op: Opcode, n: nat, mufu: nat, regs: Regs)
    requires ScalarWord(w) && FromFields(i, w, op, n, mufu) && Agrees(fp, w, op, n, mufu) && n <= 3
    ensures Scalar(i) && IrStep(fp, regs, i) == WordStep(fp, regs, w)
  {
    hide ScalarWord, WordValue, Bits, Arity, Value;
    var a, b, c := regs[Bits(w, 19, 13)], regs[i.src1.Reg()], regs[i.src2.Reg()];
    assert Value(fp, op, mufu, a, b, c) == WordValue(fp, w, a, b, c);
    assert WordValue(fp, w, a, b, c) == WordValue(fp, w, a, regs[Bits(w, 26, 20)], regs[Bits(w, 33, 27)]) by {
      UnreadFields(fp, w, op, n, mufu, a, b, c, regs[Bits(w, 26, 20)], regs[Bits(w, 33, 27)]);
    }
  }

  lemma UnreadFields(fp: FloatOps, w: nat, op: Opcode, n: nat, mufu: nat, a: u32, b: u32, c: u32, b': u32, c': u32)
    requires ScalarWord(w) && Agrees(fp, w, op, n, mufu)
    requires n >= 2 ==> b == b'
    requires n >= 3 ==> c == c'
    ensures WordValue(fp, w, a, b, c) == WordValue(fp, w, a, b', c')
  {
    hide ScalarWord, WordValue;
    assert Value(fp, op, mufu, a, b, c) == WordValue(fp, w, a, b, c);
    assert Value(fp, op, mufu, a, b', c') == WordValue(fp, w, a, b', c');
  }

  /** A scalar word decodes to a scalar instruction with the word's effect on the registers. */
  lemma WordMeans(fp: FloatOps, w: nat, pc: u32, regs: Regs)
    requires ScalarWord(w)
    ensures Scalar(ToIr(DecodeWord(w, pc))) && IrStep(fp, regs, ToIr(DecodeWord(w, pc))) == WordStep(fp, regs, w)
  {
    hide OpcodeId, Unmodified, Agrees, FromFields, ToIr, DecodeWord, IrStep, WordStep, Alu1Opcode, Alu2Opcode, Alu3Opcode, Bits;
    var id := OpcodeId(w);
    var i := ToIr(DecodeWord(w, pc));
    if FormatOf(id) == Alu3In {
      Alu3Fields(w, pc);
      Alu3Agrees(fp, w);
      FieldsAndValue(fp, i, w, Alu3Opcode(id), 3, MUFU_SIN, regs);
    } else if FormatOf(id) == Alu2In {
      Alu2Fields(w, pc);
      Alu2Agrees(fp, w);
      FieldsAndValue(fp, i, w, Alu2Opcode(id), 2, MUFU_SIN, regs);
    } else {
      Alu1Fields(w, pc);
      Alu1Agrees(fp, w);
      var op := Alu1Opcode(id);
      FieldsAndValue(fp, i, w, op, 1, if op == Flt(MUFU) then Bits(w, 54, 51) else MUFU_SIN, regs);
    }
  }

  // ── From a memory window to the registers ──────────────────────────────

  /** Every word from position i up to e is a scalar instruction or unknown. */
  predicate ScalarShader(data: seq<Byte>, i: nat, e: nat)
    requires e <= |data|
    decreases e - i
  {
    i + 8 > e || ((ScalarWord(WordAt(data, i)) || FormatOf(OpcodeId(WordAt(data, i))) == Unknown) && ScalarShader(data, i + 8, e))
  }

  /** The registers after the words from position i up to e; unknown words do nothing. */
  function WordsRun(fp: FloatOps, data: seq<Byte>, i: nat, e: nat, regs: Regs): Regs
    requires e <= |data| && ScalarShader(data, i, e)
    decreases e - i
  {
    if i + 8 > e then regs
    else WordsRun(fp, data, i + 8, e, if ScalarWord(WordAt(data, i)) then WordStep(fp, regs, WordAt(data, i)) else regs)
  }

  lemma {:induction false} IrRunCons(fp: FloatOps, i: IrInst, rest: seq<IrInst>, regs: Regs)
    ensures IrRun(fp, [i] + rest, regs) == IrRun(fp, rest, IrStep(fp, regs, i))
  {
    hide IrStep;
    var all := [i] + rest;
    if rest == [] {
      assert all[..0] == [];
    } else {
      IrRunCons(fp, i, rest[..|rest| - 1], regs);
      assert all[..|all| - 1] == [i] + rest[..|rest| - 1];
    }
  }

  /** Scalar instructions followed by EXIT. */
  ghost predicate ScalarThenExit(insts: seq<IrInst>) {
    && insts != [] && insts[|insts| - 1].opcode == Ctl(EXIT)
    && forall k :: 0 <= k < |insts| - 1 ==> Scalar(insts[k])
  }

  lemma ScalarCons(i: IrInst, rest: seq<IrInst>)
    requires Scalar(i) && ScalarThenExit(rest)
    ensures ScalarThenExit([i] + rest)
  {
    hide Scalar;
    var all := [i] + rest;
    forall k | 0 <= k < |all| - 1 ensures Scalar(all[k]) {
      if k > 0 {
        assert all[k] == rest[k - 1];
      }
    }
  }

  lemma ExitMeans(fp: FloatOps, data: seq<Byte>, e: nat, regs: Regs)
    requires |data| + 8 < 0x1_0000_0000 && ExitSlot(data, e)
    ensures ScalarThenExit(DecodeFrom(data, e)) && IrRun(fp, DecodeFrom(data, e), regs) == regs
  {
    hide ToIr, ExitSlot, DecodedAt;
    ExitInside(data, e);
    ExitWord(data, e);
    var i := ToIr(DecodedAt(data, e));
    PcOfIr(DecodedAt(data, e));
    IrRunCons(fp, i, [], regs);
    assert [i] + [] == [i];
  }

  lemma ScalarKnown(w: nat, pc: u32)
    requires ScalarWord(w)
    ensures DecodeWord(w, pc).format != Unknown && !DecodeWord(w, pc).opcode.Ctl? && DecodeWord(w, pc).size == 8
    ensures !TextureUse(DecodeWord(w, pc).opcode)
  {
    hide FieldsOf, OpcodeId, Unmodified;
  }

  lemma WordDecoded(data: seq<Byte>, pc: u32)
    requires pc + 8 <= |data|
    ensures DecodedAt(data, pc) == DecodeWord(WordAt(data, pc), pc)
    ensures DecodedAt(data, pc).format == FormatOf(OpcodeId(WordAt(data, pc)))
  {
    hide FieldsOf;
  }

  /** The decoded instructions compute the fold of the words. */
  lemma {:induction false} ShaderMeans(fp: FloatOps, data: seq<Byte>, i: nat, e: nat, regs: Regs)
    requires |data| + 8 < 0x1_0000_0000 && ExitSlot(data, e) && e + 8 <= |data| && i % 8 == 0 && e % 8 == 0 && i <= e
    requires ScalarShader(data, i, e)
    ensures ScalarThenExit(DecodeFrom(data, i)) && IrRun(fp, DecodeFrom(data, i), regs) == WordsRun(fp, data, i, e, regs)
    decreases e - i
  {
    hide ToIr, ExitSlot, DecodedAt, DecodeFrom, ScalarWord, ScalarThenExit, IrRun, WordStep, Scalar, IrStep, DecodeWord, OpcodeId, FormatOf;
    if i >= e {
      ExitMeans(fp, data, e, regs);
    } else {
      var w := WordAt(data, i);
      DecodeStep(data, i);
      WordDecoded(data, i);
      SizeIsWords(data, i);
      var rest := DecodeFrom(data, i + 8);
      if ScalarWord(w) {
        ScalarKnown(w, i);
        WordMeans(fp, w, i, regs);
        ShaderMeans(fp, data, i + 8, e, WordStep(fp, regs, w));
        var ir := ToIr(DecodeWord(w, i));
        ScalarCons(ir, rest);
        IrRunCons(fp, ir, rest, regs);
      } else {
        UnknownSize(data, i);
        ShaderMeans(fp, data, i + 8, e, regs);
        assert [] + rest == rest;
      }
    }
  }

  lemma {:induction false} ScalarIsNarrow(data: seq<Byte>, i: nat, e: nat)
    requires e <= |data| && ScalarShader(data, i, e) && i % 8 == 0 && e % 8 == 0
    ensures NoWideWord(data, i, e)
    decreases e - i
  {
    hide WordAt, OpcodeId, Unmodified;
    if i + 8 <= e {
      ScalarIsNarrow(data, i + 8, e);
    }
  }

  lemma StraightProgram(data: seq<Byte>, stage: Stage)
    requires |data| + 8 < 0x1_0000_0000 && ScalarThenExit(DecodeFrom(data, 0))
    ensures StraightLine(DecodedProgram(data, stage))
  {
    hide DecodeFrom;
  }

  /**
   From a memory window to the registers: when every word before the first
   EXIT is a scalar instruction or unknown, the code emitted for the shader cut
   out of the window runs without getting stuck, and each register's variable
   ends up holding what the fold over the window's words leaves in that
   register.
   */
  lemma BinaryComputes(fp: FloatOps, data: seq<Byte>, stage: Stage, e: nat, stale: nat, bound: nat, regs: Regs, store: map<nat, Val>)
    requires |data| + 8 < 0x1_0000_0000 && FirstExit(data, e) && e + 8 <= |data| && ScalarShader(data, 0, e)
    requires InitialStore(DecodedProgram(Cut(data), stage), stale, regs, store)
    ensures DecodeFrom(Cut(data), 0) == DecodeFrom(data, 0)
    ensures var p := DecodedProgram(Cut(data), stage);
            var code := Split(ModuleWords(p, stale, bound)[5..]);
            && code.Some? && Run(fp, Start(store), code.value).Some?
            && var vars := Run(fp, Start(store), code.value).value.vars;
            forall r :: r in GprsOf(p, stale).vars ==>
              r < 256 && GprsOf(p, stale).vars[r] in vars
              && vars[GprsOf(p, stale).vars[r]] == VF(WordsRun(fp, data, 0, e, regs)[r])
  {
    hide DecodeFrom, CutEnd, ScalarShader, WordsRun, InitialStore, GprsOf, ModuleWords, Run, Split, StraightLine, ExitSlot, IrRun;
    ScalarIsNarrow(data, 0, e);
    CutFaithful(data, e);
    assert ExitSlot(data, e);
    ShaderMeans(fp, data, 0, e, regs);
    StraightProgram(Cut(data), stage);
    EmittedCodeSimulates(fp, DecodedProgram(Cut(data), stage), stale, bound, regs, store);
  }
}
