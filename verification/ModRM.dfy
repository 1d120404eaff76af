/**
 ModR/M operands: parse_modrm and gen_modrm_sib of src/dbt/x86.c, byte by byte (section 2.1.5 of
 Intel's manual, volume 2A).
 */
module ModRM {
  import opened Basics
  import opened DbtMachine

  // ----- bytes -----

  function Low(n: int): Byte {
    n % 256
  }

  /** The four bytes of a dword, least significant first. */
  function Dword(n: int): seq<Byte> {
    var w := W(n);
    [Low(w), Low(w / 256), Low(w / 65536), Low(w / 16777216)]
  }

  function FromDword(b: seq<Byte>): Word
    requires |b| >= 4
  {
    var b0: int, b1: int, b2: int, b3: int := b[0], b[1], b[2], b[3];
    b0 + 256 * b1 + 65536 * b2 + 16777216 * b3
  }

  function SignedByte(b: Byte): int {
    if b < 128 then b else b - 256
  }

  function SignedDword(w: Word): int {
    if w < 0x8000_0000 then w else w - TWO32
  }

  lemma DwordBack(n: int, rest: seq<Byte>)
    requires -0x8000_0000 <= n < 0x8000_0000
    ensures |Dword(n)| == 4 && SignedDword(FromDword(Dword(n) + rest)) == n
  {
    Digits(W(n));
    assert FromDword(Dword(n) + rest) == W(n);
  }

  // ----- decoding -----

  datatype Parsed = Parsed(r: nat, rm: Rm, rest: seq<Byte>)

  /** The displacement that `mod` announces. */
  function ParseDisp(mod: int, code: seq<Byte>): Option<(int, seq<Byte>)> {
    if mod == 1 then
      if |code| < 1 then None else Some((SignedByte(code[0]), code[1..]))
    else if mod == 2 then
      if |code| < 4 then None else Some((SignedDword(FromDword(code)), code[4..]))
    else Some((0, code))
  }

  /** parse_modrm; None if the code ends too early. */
  function Decode(code: seq<Byte>): Option<Parsed> {
    if |code| < 1 then None
    else
      var mod, r, m := code[0] / 64, code[0] / 8 % 8, code[0] % 8;
      if mod == 3 then Some(Parsed(r, RegRm(m), code[1..]))
      else if m == 4 then
        if |code| < 2 then None
        else
          var sib := code[1];
          var index: int := if sib / 8 % 8 == 4 then -1 else sib / 8 % 8;
          var noBase := sib % 8 == 5 && mod == 0;
          var base: int := if noBase then -1 else sib % 8;
          match ParseDisp(if noBase then 2 else mod, code[2..])
          case None => None
          case Some(d) => Some(Parsed(r, MemRm(base, index, sib / 64, d.0), d.1))
      else if mod == 0 && m == 5 then
        match ParseDisp(2, code[1..])
        case None => None
        case Some(d) => Some(Parsed(r, MemRm(-1, -1, 0, d.0), d.1))
      else
        match ParseDisp(mod, code[1..])
        case None => None
        case Some(d) => Some(Parsed(r, MemRm(m, -1, 0, d.0), d.1))
  }

  // ----- encoding -----

  predicate Operand8(rm: Rm) {
    match rm
    case RegRm(r) => r < 8
    case MemRm(b, i, s, d) => -1 <= b < 8 && -1 <= i < 8 && s < 4 && -0x8000_0000 <= d < 0x8000_0000
  }

  function ModByte(mod: nat, r: nat, m: nat): Byte
    requires mod < 4 && r < 8 && m < 8
  {
    mod * 64 + r * 8 + m
  }

  function DispBytes(d: int): seq<Byte> {
    if IsDisp8(d) then [d % 256] else Dword(d)
  }

  function DispMod(d: int): (m: nat)
    ensures m < 4
  {
    if IsDisp8(d) then 1 else 2
  }

  /** gen_modrm_sib; an operand with ESP as its index yields nothing. */
  function Encode(r: nat, rm: Rm): seq<Byte>
    requires r < 8 && Operand8(rm)
  {
    match rm
    case RegRm(m) => [ModByte(3, r, m)]
    case MemRm(base, index, scale, disp) =>
      if index == ESP then []
      else if base == -1 && index == -1 then [ModByte(0, r, 5)] + Dword(disp)
      else if base == -1 then [ModByte(0, r, 4), ModByte(scale, index, 5)] + Dword(disp)
      else if base == ESP || index != -1 then
        [ModByte(DispMod(disp), r, 4), ModByte(scale, if index == -1 then 4 else index, base)] + DispBytes(disp)
      else [ModByte(DispMod(disp), r, base)] + DispBytes(disp)
  }

  // ----- round trips -----

  /** The same operand: an absent index has no scale. */
  predicate SameOperand(a: Rm, b: Rm) {
    if a.RegRm? then a == b else b.MemRm? && b.base == a.base && b.index == a.index && b.disp == a.disp && (a.index != -1 ==> b.scale == a.scale)
  }

  lemma DispBack(d: int, rest: seq<Byte>)
    requires -0x8000_0000 <= d < 0x8000_0000
    ensures ParseDisp(DispMod(d), DispBytes(d) + rest) == Some((d, rest))
    ensures ParseDisp(2, Dword(d) + rest) == Some((d, rest))
  {
    DwordBack(d, rest);
    assert (Dword(d) + rest)[4..] == rest;
    if IsDisp8(d) {
      assert ([d % 256] + rest)[1..] == rest;
    }
  }

  lemma FieldsBack(mod: nat, r: nat, m: nat)
    requires mod < 4 && r < 8 && m < 8
    ensures var b := ModByte(mod, r, m); b / 64 == mod && b / 8 % 8 == r && b % 8 == m
  {
    var b: int := ModByte(mod, r, m);
    var high := mod * 8 + r;
    assert b == high * 8 + m;
    assert b / 8 == high && b % 8 == m;
    assert high / 8 == mod && high % 8 == r;
    assert b / 8 / 8 == b / 64;
  }

  /** Parsing what gen_modrm_sib wrote gives back the register field and the operand, and leaves the
      bytes behind it. */
  lemma RoundTrip(r: nat, rm: Rm, rest: seq<Byte>)
    requires r < 8 && ValidRm(rm)
    ensures var p := Decode(Encode(r, rm) + rest);
            p.Some? && p.value.r == r && p.value.rest == rest && SameOperand(rm, p.value.rm)
  {
    hide DispBytes, Dword, ParseDisp, ModByte;
    match rm
    case RegRm(m) =>
      FieldsBack(3, r, m);
      assert ([ModByte(3, r, m)] + rest)[1..] == rest;
    case MemRm(base, index, scale, disp) =>
      DispBack(disp, rest);
      var code := Encode(r, rm) + rest;
      if base == -1 && index == -1 {
        FieldsBack(0, r, 5);
        assert code[1..] == Dword(disp) + rest;
      } else if base == -1 {
        FieldsBack(0, r, 4);
        FieldsBack(scale, index, 5);
        assert code[2..] == Dword(disp) + rest;
      } else if base == ESP || index != -1 {
        FieldsBack(DispMod(disp), r, 4);
        FieldsBack(scale, if index == -1 then 4 else index, base);
        assert code[2..] == DispBytes(disp) + rest;
      } else {
        FieldsBack(DispMod(disp), r, base);
        assert code[1..] == DispBytes(disp) + rest;
      }
  }

  /** An operand can be encoded if and only if its index is not ESP. */
  lemma EncodableIff(r: nat, rm: Rm)
    requires r < 8 && Operand8(rm)
    ensures Encode(r, rm) != [] <==> ValidRm(rm)
    ensures rm.MemRm? && ValidRm(rm) ==> |Encode(r, rm)| == ModrmLen(rm)
  {
  }

  lemma {:induction false} SameAddress(a: Rm, b: Rm, regs: Regs)
    requires ValidRm(a) && ValidRm(b) && SameOperand(a, b) && a.MemRm?
    ensures Effective(a, regs) == Effective(b, regs)
  {
  }

  /** Every operand that can be parsed can be encoded again, with the same address for all register
      values. */
  lemma Reencode(code: seq<Byte>, regs: Regs)
    requires Decode(code).Some?
    ensures var p := Decode(code).value;
            && p.r < 8 && ValidRm(p.rm)
            && var q := Decode(Encode(p.r, p.rm));
               q.Some? && q.value.r == p.r && q.value.rest == [] && ValidRm(q.value.rm)
               && (if p.rm.MemRm? then q.value.rm.MemRm? && Effective(q.value.rm, regs) == Effective(p.rm, regs) else q.value.rm == p.rm)
  {
    DecodeValid(code);
    var p := Decode(code).value;
    RoundTrip(p.r, p.rm, []);
    var again := Encode(p.r, p.rm);
    assert again + [] == again;
    DecodeValid(again);
    if p.rm.MemRm? {
      SameAddress(p.rm, Decode(again).value.rm, regs);
    }
  }

  lemma DecodeValid(code: seq<Byte>)
    requires Decode(code).Some?
    ensures Decode(code).value.r < 8 && ValidRm(Decode(code).value.rm)
  {
    hide FromDword;
  }

  // ----- what the processor makes of the bytes -----

  /** The fields of the ModR/M byte and, likewise, of the SIB byte. */
  function Top(b: Byte): int { b / 64 }
  function Middle(b: Byte): int { b / 8 % 8 }
  function Bottom(b: Byte): int { b % 8 }

  function ByteAt(code: seq<Byte>, i: nat): int
    requires i < |code|
  {
    code[i]
  }

  /** A displacement of `n` bytes, least significant first, modulo 2^32; one byte is extended by its sign. */
  function DispAt(code: seq<Byte>, at: nat, n: nat): Option<int> {
    if at + n > |code| then None
    else if n == 0 then Some(0)
    else if n == 1 then Some(ByteAt(code, at) + if ByteAt(code, at) >= 128 then 0xFFFF_FF00 else 0)
    else if n == 4 then
      Some(ByteAt(code, at) + 0x100 * ByteAt(code, at + 1) + 0x1_0000 * ByteAt(code, at + 2) + 0x100_0000 * ByteAt(code, at + 3))
    else None
  }

  /** The bytes of the displacement that `mod` announces. */
  function DispLen(mod: int): nat {
    if mod == 1 then 1 else if mod == 2 then 4 else 0
  }

  /** The address of a memory operand as the processor computes it (tables 2-2 and 2-3 of section 2.1.5). */
  function Address32(code: seq<Byte>, regs: Regs): Option<Word> {
    if |code| < 1 || Top(code[0]) == 3 then None
    else
      var mod := Top(code[0]);
      var sib := Bottom(code[0]) == 4;
      if sib && |code| < 2 then None
      else
        var base := if sib then Bottom(code[1]) else Bottom(code[0]);
        var at := if sib then 2 else 1;
        var absent := mod == 0 && base == 5;
        var scaled: int := if sib && Middle(code[1]) != 4 then regs[Middle(code[1])] as int * [1, 2, 4, 8][Top(code[1])] else 0;
        match DispAt(code, at, DispLen(if absent then 2 else mod))
        case None => None
        case Some(d) => Some(W((if absent then 0 else regs[base] as int) + scaled + d))
  }

  /** Both readings of a displacement agree modulo 2^32. */
  lemma DispSame(code: seq<Byte>, at: nat, mod: int, x: int)
    requires at <= |code|
    ensures match ParseDisp(mod, code[at..])
            case None => DispAt(code, at, DispLen(mod)) == None
            case Some(d) => var e := DispAt(code, at, DispLen(mod)); e.Some? && W(x + e.value) == W(x + d.0)
  {
    var rest := code[at..];
    if mod == 1 && |rest| >= 1 {
      assert rest[0] == code[at];
      Wraps(x + SignedByte(rest[0]));
    } else if mod == 2 && |rest| >= 4 {
      assert rest[0] == code[at] && rest[1] == code[at + 1] && rest[2] == code[at + 2] && rest[3] == code[at + 3];
      Wraps(x + SignedDword(FromDword(rest)));
    }
  }

  lemma Wraps(n: int)
    ensures W(n + TWO32) == W(n)
  {
  }

  lemma SibAddress(code: seq<Byte>, regs: Regs)
    requires |code| >= 2 && code[0] / 64 != 3 && code[0] % 8 == 4
    ensures Decode(code).Some? <==> Address32(code, regs).Some?
    ensures Decode(code).Some? ==> var rm := Decode(code).value.rm; rm.MemRm? && ValidRm(rm) && Address32(code, regs) == Some(Effective(rm, regs))
  {
    hide ParseDisp, DispAt, W;
    var sib := code[1];
    var index: int := if sib / 8 % 8 == 4 then -1 else sib / 8 % 8;
    var noBase := sib % 8 == 5 && code[0] / 64 == 0;
    DispSame(code, 2, if noBase then 2 else code[0] / 64,
             (if noBase then 0 else regs[sib % 8]) + if index == -1 then 0 else Scaled(regs[index], sib / 64));
    DecodedDisp(code);
  }

  lemma DecodedDisp(code: seq<Byte>)
    ensures Decode(code).Some? && Decode(code).value.rm.MemRm? ==> -0x8000_0000 <= Decode(code).value.rm.disp < 0x8000_0000
  {
    hide FromDword;
  }

  /** parse_modrm reads the operand that the processor addresses, for all register values. */
  lemma DecodeAddress(code: seq<Byte>, regs: Regs)
    ensures Decode(code).Some? && Decode(code).value.rm.MemRm? <==> Address32(code, regs).Some?
    ensures Decode(code).Some? && Decode(code).value.rm.MemRm? ==>
              ValidRm(Decode(code).value.rm) && Address32(code, regs) == Some(Effective(Decode(code).value.rm, regs))
    ensures Decode(code).Some? ==> Decode(code).value.r == Middle(code[0]) && (Decode(code).value.rm.RegRm? ==> Decode(code).value.rm.r == Bottom(code[0]))
  {
    hide ParseDisp, DispAt, W;
    if |code| >= 1 && code[0] / 64 != 3 {
      if code[0] % 8 == 4 {
        if |code| >= 2 {
          SibAddress(code, regs);
        }
      } else {
        var mod := code[0] / 64;
        var absent := mod == 0 && code[0] % 8 == 5;
        DispSame(code, 1, if absent then 2 else mod, if absent then 0 else regs[code[0] % 8]);
        DecodedDisp(code);
      }
    }
  }

  /** The processor addresses what gen_modrm_sib was asked for. */
  lemma EncodeAddress(r: nat, rm: Rm, rest: seq<Byte>, regs: Regs)
    requires r < 8 && ValidRm(rm)
    ensures var code := Encode(r, rm) + rest;
            && Middle(code[0]) == r
            && if rm.RegRm? then Top(code[0]) == 3 && Bottom(code[0]) == rm.r else Address32(code, regs) == Some(Effective(rm, regs))
  {
    RoundTrip(r, rm, rest);
    DecodeAddress(Encode(r, rm) + rest, regs);
    if rm.MemRm? {
      SameAddress(rm, Decode(Encode(r, rm) + rest).value.rm, regs);
    }
  }

  // ----- the code as it is written -----

  class Emitter {
    var out: seq<Byte>

    constructor ()
      ensures out == []
    {
      out := [];
    }

    method GenByte(b: Byte)
      modifies this
      ensures out == old(out) + [b]
    {
      out := out + [b];
    }

    method GenDword(n: int)
      modifies this
      ensures out == old(out) + Dword(n)
    {
      out := out + Dword(n);
    }

    method GenDisp(d: int)
      modifies this
      ensures out == old(out) + DispBytes(d)
    {
      if IsDisp8(d) {
        GenByte(d % 256);
      } else {
        GenDword(d);
      }
    }

    /** The operands with a base register. */
    method GenBased(r: nat, base: nat, index: int, scale: nat, disp: int)
      requires r < 8 && Operand8(MemRm(base, index, scale, disp)) && index != ESP
      modifies this
      ensures out == old(out) + Encode(r, MemRm(base, index, scale, disp))
    {
      hide Dword, DispBytes, DispMod, IsDisp8, ModByte, Encode;
      BasedIs(r, base, index, scale, disp);
      if base == ESP || index != -1 {
        GenByte(ModByte(DispMod(disp), r, 4));
        GenByte(ModByte(scale, if index == -1 then 4 else index, base));
      } else {
        GenByte(ModByte(DispMod(disp), r, base));
      }
      GenDisp(disp);
    }

    static lemma BasedIs(r: nat, base: nat, index: int, scale: nat, disp: int)
      requires r < 8 && Operand8(MemRm(base, index, scale, disp)) && index != ESP
      ensures Encode(r, MemRm(base, index, scale, disp)) ==
              (if base == ESP || index != -1
               then [ModByte(DispMod(disp), r, 4)] + [ModByte(scale, if index == -1 then 4 else index, base)]
               else [ModByte(DispMod(disp), r, base)]) + DispBytes(disp)
    {
      hide Dword, DispBytes, DispMod, IsDisp8, ModByte;
    }

    /** gen_modrm_sib. */
    method GenModrmSib(r: nat, rm: Rm)
      requires r < 8 && Operand8(rm)
      modifies this
      ensures out == old(out) + Encode(r, rm)
    {
      hide Dword, ModByte, DispBytes, DispMod, ValidRm, IsDisp8;
      match rm {
        case RegRm(m) => GenByte(ModByte(3, r, m));
        case MemRm(base, index, scale, disp) =>
          if index == ESP {
          } else if base == -1 && index == -1 {
            GenByte(ModByte(0, r, 5));
            GenDword(disp);
          } else if base == -1 {
            GenByte(ModByte(0, r, 4));
            GenByte(ModByte(scale, index, 5));
            GenDword(disp);
          } else {
            GenBased(r, base, index, scale, disp);
          }
      }
    }
  }
}
