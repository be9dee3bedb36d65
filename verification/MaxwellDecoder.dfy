/**
 The Maxwell decoder: 64-bit instruction words to the intermediate
 representation, and the cut of a shader out of a memory window at its first
 EXIT word.
 */
module MaxwellDecoder {
  import opened Arithmetic
  import opened Common
  import opened Sequences
  import opened ShaderIr

  // ── Bit fields ─────────────────────────────────────────────────────────

  lemma Pow2Values()
    ensures Pow2(4) == 16 && Pow2(7) == 128 && Pow2(14) == 0x4000
  {
    assert Pow2(7) == 8 * Pow2(4);
    assert Pow2(10) == 8 * Pow2(7);
    assert Pow2(14) == 16 * Pow2(10);
  }

  /** The bits of v from hi down to lo. */
  function Bits(v: nat, hi: nat, lo: nat): (r: nat)
    requires lo <= hi <= lo + 13
    ensures r < 0x4000
    ensures hi <= lo + 6 ==> r < 128
    ensures hi <= lo + 3 ==> r < 16
  {
    Pow2Values();
    Pow2Grows(hi - lo + 1, 14);
    Pow2Grows(if hi <= lo + 6 then hi - lo + 1 else 0, 7);
    Pow2Grows(if hi <= lo + 3 then hi - lo + 1 else 0, 4);
    (v / Pow2(lo)) % Pow2(hi - lo + 1)
  }

  predicate Bit(v: nat, b: nat) {
    Bits(v, b, b) == 1
  }

  function LittleEndian(bytes: seq<Byte>): nat {
    if bytes == [] then 0 else bytes[0] + 0x100 * LittleEndian(bytes[1..])
  }

  /** The instruction word at a byte offset. */
  function WordAt(data: seq<Byte>, pc: nat): nat
    requires pc + 8 <= |data|
  {
    LittleEndian(data[pc..pc + 8])
  }

  function OpcodeId(word: nat): nat { Bits(word, 12, 5) }

  // ── Formats and opcodes ────────────────────────────────────────────────

  datatype Format =
    | Unknown | Alu3In | Alu2In | Alu1In | ISetp | FSetp | MemoryLoad | MemoryStore | Texture
    | SpecialReg | PredicateReg | Branch | Sync | Exit

  function FormatOf(id: nat): Format {
    if id == 0x00 || 0x10 <= id <= 0x11 || 0x73 <= id <= 0x75 then Alu3In
    else if 0x01 <= id <= 0x05 || 0x12 <= id <= 0x16 || 0x18 <= id <= 0x1B || 0x20 <= id <= 0x22 || id == 0x31 then Alu2In
    else if 0x06 <= id <= 0x0D || 0x1C <= id <= 0x1F then Alu1In
    else if id == 0x17 then ISetp
    else if id == 0x30 then FSetp
    else if 0x40 <= id <= 0x44 then MemoryLoad
    else if 0x50 <= id <= 0x53 then MemoryStore
    else if 0x60 <= id <= 0x64 then Texture
    else if id == 0x70 then SpecialReg
    else if 0x71 <= id <= 0x72 then PredicateReg
    else if id == 0x80 || 0x85 <= id <= 0x88 then Exit
    else if 0x81 <= id <= 0x82 then Branch
    else if 0x83 <= id <= 0x84 then Sync
    else Unknown
  }

  function Alu3Opcode(id: nat): Opcode {
    if id == 0x10 then Int(IADD3) else if id == 0x11 then Int(IMAD)
    else if id == 0x73 then Spc(PRMT) else if id == 0x74 then Spc(BFE) else if id == 0x75 then Spc(BFI)
    else Flt(FMAD)
  }

  function Alu2Opcode(id: nat): Opcode {
    if id == 0x02 then Flt(FMUL) else if id == 0x03 then Flt(FMAX) else if id == 0x04 then Flt(FMIN)
    else if id == 0x05 then Flt(FSAT)
    else if id == 0x12 then Int(IADD) else if id == 0x13 then Int(ISUB) else if id == 0x14 then Int(IMUL)
    else if id == 0x15 then Int(IABS) else if id == 0x16 then Int(INEG)
    else if id == 0x18 then Int(I2F) else if id == 0x19 then Int(I2I) else if id == 0x1A then Int(IMNMX)
    else if id == 0x1B then Int(LEA)
    else if id == 0x20 then Cvt(F2F) else if id == 0x21 then Cvt(F2I) else if id == 0x22 then Cvt(F2F_C)
    else if id == 0x31 then Cmp(FSET)
    else Flt(FADD)
  }

  function Alu1Opcode(id: nat): Opcode {
    if id == 0x07 then Flt(FRCP) else if id == 0x08 then Flt(FRSQ) else if id == 0x09 then Flt(FSQRT)
    else if id == 0x0A then Flt(FEX2) else if id == 0x0B then Flt(FLG2) else if id == 0x0C then Flt(FSIN)
    else if id == 0x0D then Flt(FCOS)
    else if id == 0x1C then Int(POPC) else if id == 0x1D then Int(FLO) else if id == 0x1E then Int(SHL)
    else if id == 0x1F then Int(SHR)
    else Flt(MUFU)
  }

  function OpcodeOf(id: nat, format: Format): Opcode {
    match format
    case Alu3In => Alu3Opcode(id)
    case Alu2In => Alu2Opcode(id)
    case Alu1In => Alu1Opcode(id)
    case ISetp => Int(ISETP)
    case FSetp => Cmp(FSETP)
    case MemoryLoad =>
      Load(if id == 0x41 then LG else if id == 0x42 then LL else if id == 0x43 then LDS else if id == 0x44 then LDC else LD)
    case MemoryStore => Store(if id == 0x51 then STG else if id == 0x52 then STL else if id == 0x53 then STS else ST)
    case Texture =>
      Tex(if id == 0x61 then TEXS else if id == 0x62 then TLDS else if id == 0x63 then TLD4 else if id == 0x64 then TXQ else TEX)
    case SpecialReg => Spc(S2R)
    case PredicateReg => Spc(if id == 0x72 then P2R else R2P)
    case Branch => Ctl(if id == 0x82 then CALL else BRA)
    case Sync => Ctl(if id == 0x84 then SYNC else SSY)
    case Exit =>
      Ctl(if id == 0x85 then RET else if id == 0x86 then KIL else if id == 0x87 then CONT else if id == 0x88 then BREAK else EXIT)
    case Unknown => Ctl(NOP)
  }

  // ── Decoded instructions ───────────────────────────────────────────────

  datatype Fields = Fields(
    dest: nat, src0: nat, src1: nat, src2: nat, predSrc: nat, tex: nat, target: u32, count: Count,
    neg0: bool, neg1: bool, abs0: bool, abs1: bool, saturate: bool, mufu: nat)
  {
    predicate Narrow() { dest < 256 && src0 < 256 && src1 < 256 && src2 < 256 && tex < 256 }
  }

  /** A decoded word whose register numbers fit a byte. */
  type NarrowFields = f: Fields | f.Narrow() witness NO_FIELDS

  const NO_FIELDS := Fields(0, 0, 0, 0, 0, 0, 0, 0, false, false, false, false, false, 0)

  datatype Decoded = Decoded(pc: u32, size: nat, format: Format, opcode: Opcode, field: NarrowFields)

  function Alu3Fields(w: nat): NarrowFields {
    NO_FIELDS.(dest := Bits(w, 44, 39), src0 := Bits(w, 19, 13), src1 := Bits(w, 26, 20), src2 := Bits(w, 33, 27),
               neg0 := Bit(w, 45), neg1 := Bit(w, 46), abs0 := Bit(w, 47), abs1 := Bit(w, 48), saturate := Bit(w, 49), count := 3)
  }

  function Alu2Fields(w: nat): NarrowFields {
    NO_FIELDS.(dest := Bits(w, 44, 39), src0 := Bits(w, 19, 13), src1 := Bits(w, 26, 20),
               neg0 := Bit(w, 45), neg1 := Bit(w, 46), abs0 := Bit(w, 47), saturate := Bit(w, 49), count := 2)
  }

  function Alu1Fields(w: nat, opcode: Opcode): NarrowFields {
    NO_FIELDS.(dest := Bits(w, 44, 39), src0 := Bits(w, 19, 13), count := 1,
               mufu := if opcode == Flt(MUFU) then Bits(w, 54, 51) else 0)
  }

  function SetpFields(w: nat): NarrowFields {
    NO_FIELDS.(src0 := Bits(w, 19, 13), src1 := Bits(w, 26, 20), predSrc := Bits(w, 35, 33),
               neg0 := Bit(w, 45), neg1 := Bit(w, 46), count := 2)
  }

  function MemoryFields(w: nat): NarrowFields {
    NO_FIELDS.(dest := Bits(w, 19, 13), src0 := Bits(w, 44, 39), count := 1)
  }

  function TextureFields(w: nat): NarrowFields {
    NO_FIELDS.(dest := Bits(w, 19, 13), src0 := Bits(w, 33, 27), tex := Bits(w, 44, 39), count := 1)
  }

  function SpecialFields(w: nat): NarrowFields {
    NO_FIELDS.(dest := Bits(w, 19, 13), src0 := Bits(w, 44, 39))
  }

  /** A two's-complement field of the given width, which is at most 14 bits. */
  function SignExtend(v: nat, bits: nat): int
    requires 0 < bits
  {
    if v >= Pow2(bits - 1) then v - Pow2(bits) else v
  }

  function BranchFields(w: nat, pc: u32): NarrowFields {
    NO_FIELDS.(target := (pc + 8 + 8 * SignExtend(Bits(w, 26, 13), 14)) % 0x1_0000_0000, predSrc := Bits(w, 35, 33))
  }

  function FieldsOf(w: nat, pc: u32, format: Format, opcode: Opcode): NarrowFields {
    match format
    case Alu3In => Alu3Fields(w)
    case Alu2In => Alu2Fields(w)
    case Alu1In => Alu1Fields(w, opcode)
    case ISetp => SetpFields(w)
    case FSetp => SetpFields(w)
    case MemoryLoad => MemoryFields(w)
    case MemoryStore => MemoryFields(w)
    case Texture => TextureFields(w)
    case Branch => BranchFields(w, pc)
    case Sync => BranchFields(w, pc)
    case SpecialReg => SpecialFields(w)
    case PredicateReg => SpecialFields(w)
    case Exit => NO_FIELDS
    case Unknown => NO_FIELDS
  }

  predicate Wide(format: Format) {
    format == MemoryLoad || format == MemoryStore || format == Texture
  }

  function DecodeWord(w: nat, pc: u32): Decoded {
    var format := FormatOf(OpcodeId(w));
    var opcode := OpcodeOf(OpcodeId(w), format);
    Decoded(pc, if Wide(format) then 16 else 8, format, opcode, FieldsOf(w, pc, format, opcode))
  }

  /** What the decoder makes of the bytes at pc; a word cut short is unknown. */
  function DecodedAt(data: seq<Byte>, pc: u32): (d: Decoded)
    ensures d.pc == pc && (d.size == 8 || d.size == 16) && (pc + 8 > |data| ==> d.format == Unknown && d.size == 8)
  {
    if pc + 8 > |data| then Decoded(pc, 8, Unknown, Ctl(NOP), NO_FIELDS) else DecodeWord(WordAt(data, pc), pc)
  }

  // ── Conversion to the intermediate representation ──────────────────────

  function Register(reg: nat): Operand
    requires reg < 256
  {
    Operand(KGpr, reg, false, false, false, MUFU_SIN)
  }

  const NO_OPERAND := Operand(KNone, 0, false, false, false, MUFU_SIN)

  predicate Jump(op: Opcode) {
    op == Ctl(BRA) || op == Ctl(CALL) || op == Ctl(SSY) || op == Ctl(SYNC)
  }

  predicate Sampling(op: Opcode) {
    op == Tex(TEX) || op == Tex(TEXS) || op == Tex(TLDS) || op == Tex(TLD4)
  }

  function Dest(d: Decoded): Operand {
    if d.opcode == Ctl(EXIT) || d.field.count > 0 || d.field.dest != 0 then Register(d.field.dest).(saturate := d.field.saturate)
    else NO_OPERAND
  }

  function FirstSource(d: Decoded): Operand {
    if d.field.count >= 1 then
      var o := Register(d.field.src0).(negate := d.field.neg0, absolute := d.field.abs0);
      if d.opcode == Flt(MUFU) then o.(mufu := d.field.mufu) else o
    else NO_OPERAND
  }

  function ToIr(d: Decoded): IrInst {
    var f := d.field;
    var src1 := if f.count >= 2 then Register(f.src1).(negate := f.neg1, absolute := f.abs1) else NO_OPERAND;
    var src2 := if f.count >= 3 then Register(f.src2) else NO_OPERAND;
    var plain := IrInst(d.opcode, Dest(d), FirstSource(d), src1, src2, f.count, d.pc, f.predSrc != 0, f.predSrc, false);
    if Jump(d.opcode) then plain.(src0 := NO_OPERAND.(kind := KLabel, bits := f.target / 8), srcCount := 1)
    else if Sampling(d.opcode) then
      plain.(dest := Register(f.dest), src0 := Register(f.src0), src1 := NO_OPERAND.(kind := KTexture, bits := f.tex), srcCount := 2)
    else if d.opcode == Spc(S2R) then
      plain.(dest := Register(f.dest), src0 := NO_OPERAND.(kind := KSpecialReg, bits := f.src0), srcCount := 1)
    else plain
  }

  // ── A whole shader ─────────────────────────────────────────────────────

  /** The instructions from pc on: unknown words are skipped, EXIT is the last. */
  function DecodeFrom(data: seq<Byte>, pc: nat): seq<IrInst>
    requires |data| + 8 < 0x1_0000_0000
    decreases |data| - pc
  {
    if pc >= |data| then []
    else
      var d := DecodedAt(data, pc);
      if d.format == Unknown then DecodeFrom(data, pc + 8)
      else if d.opcode == Ctl(EXIT) then [ToIr(d)]
      else [ToIr(d)] + DecodeFrom(data, pc + d.size)
  }

  lemma DecodeEnd(data: seq<Byte>)
    requires |data| + 8 < 0x1_0000_0000
    ensures forall pc :: pc >= |data| ==> DecodeFrom(data, pc) == []
  {
  }

  /** One step of decoding and what is left after it; wide words lie inside the data, so the offset stays below 2^32. */
  lemma DecodeStep(data: seq<Byte>, pc: u32) returns (rest: seq<IrInst>)
    requires |data| + 8 < 0x1_0000_0000 && pc < |data|
    ensures var d := DecodedAt(data, pc);
            && pc + d.size < 0x1_0000_0000
            && (d.format == Unknown || d.opcode != Ctl(EXIT) ==>
                  rest == DecodeFrom(data, pc + if d.format == Unknown then 8 else d.size))
            && (d.format != Unknown && d.opcode == Ctl(EXIT) ==> rest == [])
            && DecodeFrom(data, pc) == if d.format == Unknown then rest else [ToIr(d)] + rest
  {
    hide DecodedAt, ToIr;
    var d := DecodedAt(data, pc);
    rest := if d.format == Unknown then DecodeFrom(data, pc + 8)
            else if d.opcode == Ctl(EXIT) then [] else DecodeFrom(data, pc + d.size);
    NothingLast([ToIr(d)]);
  }

  predicate TextureUse(op: Opcode) {
    op == Tex(TEX) || op == Tex(TEXS) || op == Tex(TLDS)
  }

  predicate HasTexture(insts: seq<IrInst>) {
    exists k :: 0 <= k < |insts| && TextureUse(insts[k].opcode)
  }

  /** The program decoded from the bytes of a shader. */
  function DecodedProgram(data: seq<Byte>, stage: Stage): Program
    requires |data| + 8 < 0x1_0000_0000
  {
    var insts := DecodeFrom(data, 0);
    Program(stage, insts, HasTexture(insts))
  }

  datatype DecodeError = Truncated(pc: nat) | UnknownWord(pc: nat, word: nat)

  /** Per-shader decoding state; its error list is never written. */
  class Context {
    var offset: u32
    var errors: seq<DecodeError>

    constructor ()
      ensures offset == 0 && errors == []
    {
      offset, errors := 0, [];
    }
  }

  class Decoder {
    var errors: seq<DecodeError>

    constructor ()
      ensures errors == []
    {
      errors := [];
    }

    /** One instruction; a short or unknown word is reported. */
    method DecodeOne(data: seq<Byte>, pc: u32) returns (inst: Decoded)
      modifies this`errors
      ensures inst == DecodedAt(data, pc)
      ensures errors == old(errors) +
              (if pc + 8 > |data| then [Truncated(pc)]
               else if inst.format == Unknown then [UnknownWord(pc, WordAt(data, pc))] else [])
    {
      inst := Decoded(pc, 8, Unknown, Ctl(NOP), NO_FIELDS);
      if pc + 8 > |data| {
        errors := errors + [Truncated(pc)];
        return;
      }
      var raw := WordAt(data, pc);
      inst := DecodeWord(raw, pc);
      if inst.format == Unknown {
        errors := errors + [UnknownWord(pc, raw)];
      }
    }

    /**
     A whole shader. The reported errors are replaced by the context's, which
     are none, so that no error survives the call.
     */
    method Decode(data: seq<Byte>, stage: Stage) returns (program: Program)
      requires |data| + 8 < 0x1_0000_0000
      modifies this`errors
      ensures program == DecodedProgram(data, stage)
      ensures errors == []
    {
      hide DecodedAt, DecodeFrom, ToIr, TextureUse;
      var ctx := new Context();
      var insts: seq<IrInst> := [];
      ghost var all, rest := DecodeFrom(data, 0), DecodeFrom(data, 0);
      NothingFirst(rest);
      DecodeEnd(data);
      while ctx.offset < |data|
        invariant ctx.errors == []
        invariant insts + rest == all && rest == DecodeFrom(data, ctx.offset)
      {
        var di := DecodeOne(data, ctx.offset);
        rest := DecodeStep(data, ctx.offset);
        if di.format == Unknown {
          ctx.offset := (ctx.offset + 8) % 0x1_0000_0000;
          continue;
        }
        Associative(insts, [ToIr(di)], rest);
        insts := insts + [ToIr(di)];
        ctx.offset := (ctx.offset + di.size) % 0x1_0000_0000;
        if di.opcode == Ctl(EXIT) {
          assert rest == [];
          break;
        }
      }
      assert insts == all by { NothingLast(insts); }
      var textures := UsesTextures(insts);
      errors := ctx.errors;
      program := Program(stage, insts, textures);
    }
  }

  method UsesTextures(insts: seq<IrInst>) returns (used: bool)
    ensures used <==> HasTexture(insts)
  {
    used := false;
    for k := 0 to |insts|
      invariant used <==> exists j :: 0 <= j < k && TextureUse(insts[j].opcode)
    {
      if TextureUse(insts[k].opcode) {
        used := true;
      }
    }
  }

  // ── Extraction of a shader from memory ─────────────────────────────────

  const EXIT_ID := 0x80

  predicate ExitSlot(data: seq<Byte>, i: nat) {
    i + 8 <= |data| && OpcodeId(WordAt(data, i)) == EXIT_ID
  }

  /** The end of the shader: after the first EXIT word at or after i, or the end of the data. */
  function CutEnd(data: seq<Byte>, i: nat): (end: nat)
    ensures end <= |data|
    decreases |data| - i
  {
    if i + 8 > |data| then |data| else if ExitSlot(data, i) then i + 8 else CutEnd(data, i + 8)
  }

  function Cut(data: seq<Byte>): seq<Byte> {
    data[..CutEnd(data, 0)]
  }

  /** The window at an offset, clamped to the region and to a maximum size. */
  function Window(region: seq<Byte>, offset: nat, maxSize: u32): (w: seq<Byte>)
    requires offset < |region|
    ensures |w| == if |region| - offset < maxSize then |region| - offset else maxSize
  {
    if |region| - offset < maxSize then region[offset..] else region[offset..offset + maxSize]
  }

  /** No bytes for an offset outside the region; otherwise the window cut at its first EXIT. */
  method ExtractShader(region: seq<Byte>, offset: nat, maxSize: u32) returns (result: seq<Byte>)
    ensures result == if offset < |region| then Cut(Window(region, offset, maxSize)) else []
  {
    if |region| == 0 || offset >= |region| {
      return [];
    }
    var window := Window(region, offset, maxSize);
    var end := |window|;
    var i := 0;
    while i + 8 <= |window|
      invariant end == |window| && CutEnd(window, i) == CutEnd(window, 0)
    {
      if OpcodeId(WordAt(window, i)) == EXIT_ID {
        end := i + 8;
        break;
      }
      i := i + 8;
    }
    result := window[..end];
  }
}
