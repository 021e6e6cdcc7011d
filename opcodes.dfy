/** Instruction words of the CHIP-8 instruction set (section 3.1 of Cowgod's Chip-8
    Technical Reference v1.0): operand fields, the decoded instruction, and the
    two-level dispatch on the top nibble and a secondary key. */
module Opcodes {
  import opened Words

  // Operand fields of an instruction word; each is the C++ `(opcode & mask) >> shift`.

  /** `(opcode & 0xF000) >> 12`, the key of the main dispatch table */
  function Class(w: word): nibble { w / 0x1000 }
  /** `(opcode & 0x0F00) >> 8` */
  function X(w: word): nibble { (w / 0x100) % 0x10 }
  /** `(opcode & 0x00F0) >> 4` */
  function Y(w: word): nibble { (w / 0x10) % 0x10 }
  /** `opcode & 0x000F` */
  function N(w: word): nibble { w % 0x10 }
  /** `opcode & 0x00FF` */
  function KK(w: word): byte { w % 0x100 }
  /** `opcode & 0x0FFF` */
  function NNN(w: word): addr { w % 0x1000 }

  /** The instruction a handler executes, with the operands that handler reads
      (mnemonics of the technical reference). `Null` is the empty handler. */
  datatype Instr =
    | Cls                                  // 00E0
    | Ret                                  // 00EE
    | Jp(nnn: addr)                        // 1nnn
    | Call(nnn: addr)                      // 2nnn
    | SeByte(x: nibble, kk: byte)          // 3xkk
    | SneByte(x: nibble, kk: byte)         // 4xkk
    | SeReg(x: nibble, y: nibble)          // 5xy0
    | LdByte(x: nibble, kk: byte)          // 6xkk
    | AddByte(x: nibble, kk: byte)         // 7xkk
    | LdReg(x: nibble, y: nibble)          // 8xy0
    | Or(x: nibble, y: nibble)             // 8xy1
    | And(x: nibble, y: nibble)            // 8xy2
    | Xor(x: nibble, y: nibble)            // 8xy3
    | AddReg(x: nibble, y: nibble)         // 8xy4
    | Sub(x: nibble, y: nibble)            // 8xy5
    | Shr(x: nibble)                       // 8xy6
    | Subn(x: nibble, y: nibble)           // 8xy7
    | Shl(x: nibble)                       // 8xyE
    | SneReg(x: nibble, y: nibble)         // 9xy0
    | LdI(nnn: addr)                       // Annn
    | JpV0(nnn: addr)                      // Bnnn
    | Rnd(x: nibble, kk: byte)             // Cxkk
    | Drw(x: nibble, y: nibble, n: nibble) // Dxyn
    | Skp(x: nibble)                       // Ex9E
    | Sknp(x: nibble)                      // ExA1
    | LdVxDt(x: nibble)                    // Fx07
    | LdVxK(x: nibble)                     // Fx0A
    | LdDtVx(x: nibble)                    // Fx15
    | LdStVx(x: nibble)                    // Fx18
    | AddI(x: nibble)                      // Fx1E
    | LdF(x: nibble)                       // Fx29
    | LdB(x: nibble)                       // Fx33
    | LdMemRegs(x: nibble)                 // Fx55
    | LdRegsMem(x: nibble)                 // Fx65
    | Null

  /** The instruction names a register Vx. */
  predicate HasX(i: Instr)
  {
    !(i.Cls? || i.Ret? || i.Jp? || i.Call? || i.LdI? || i.JpV0? || i.Null?)
  }

  /** The instruction names a second register Vy. */
  predicate HasY(i: Instr)
  {
    i.SeReg? || i.LdReg? || i.Or? || i.And? || i.Xor? || i.AddReg? || i.Sub? || i.Subn?
    || i.SneReg? || i.Drw?
  }

  /** The instruction has a byte operand kk. */
  predicate HasKK(i: Instr)
  {
    i.SeByte? || i.SneByte? || i.LdByte? || i.AddByte? || i.Rnd?
  }

  /** The instruction has an address operand nnn. */
  predicate HasNNN(i: Instr)
  {
    i.Jp? || i.Call? || i.LdI? || i.JpV0?
  }

  /** The slots the constructor fills in the secondary tables `table0`, `table8`,
      `tableE` and `tableF`; the main table is filled for every class. */
  predicate Assigned(w: word)
  {
    match Class(w)
    case 0x0 => N(w) in {0x0, 0xE}
    case 0x8 => N(w) in {0x0, 0x1, 0x2, 0x3, 0x4, 0x5, 0x6, 0x7, 0xE}
    case 0xE => N(w) in {0x1, 0xE}
    case 0xF => KK(w) in {0x07, 0x0A, 0x15, 0x18, 0x1E, 0x29, 0x33, 0x55, 0x65}
    case _ => true
  }

  /** `Table0`: dispatch of class 0 on the low nibble. */
  function Decode0(w: word): (r: Instr)
    ensures r == Cls <==> N(w) == 0x0
    ensures r == Ret <==> N(w) == 0xE
    ensures r.Null? <==> N(w) !in {0x0, 0xE}
  {
    match N(w)
    case 0x0 => Cls
    case 0xE => Ret
    case _ => Null
  }

  /** `Table8`: dispatch of class 8 on the low nibble. */
  function Decode8(w: word): (r: Instr)
    ensures r.Null? <==> N(w) !in {0x0, 0x1, 0x2, 0x3, 0x4, 0x5, 0x6, 0x7, 0xE}
    ensures !r.Null? ==> HasX(r) && r.x == X(w)
    ensures HasY(r) ==> r.y == Y(w)
  {
    var x, y := X(w), Y(w);
    match N(w)
    case 0x0 => LdReg(x, y)
    case 0x1 => Or(x, y)
    case 0x2 => And(x, y)
    case 0x3 => Xor(x, y)
    case 0x4 => AddReg(x, y)
    case 0x5 => Sub(x, y)
    case 0x6 => Shr(x)
    case 0x7 => Subn(x, y)
    case 0xE => Shl(x)
    case _ => Null
  }

  /** `TableE`: dispatch of class E on the low nibble. */
  function DecodeE(w: word): (r: Instr)
    ensures r.Null? <==> N(w) !in {0x1, 0xE}
    ensures r == Skp(X(w)) <==> N(w) == 0xE
    ensures r == Sknp(X(w)) <==> N(w) == 0x1
    ensures r.Null? <==> !r.Skp? && !r.Sknp?
  {
    match N(w)
    case 0x1 => Sknp(X(w))
    case 0xE => Skp(X(w))
    case _ => Null
  }

  /** `TableF`: dispatch of class F on the low byte. */
  function DecodeF(w: word): (r: Instr)
    ensures r.Null? <==> KK(w) !in {0x07, 0x0A, 0x15, 0x18, 0x1E, 0x29, 0x33, 0x55, 0x65}
    ensures !r.Null? ==> HasX(r) && r.x == X(w)
  {
    var x := X(w);
    match KK(w)
    case 0x07 => LdVxDt(x)
    case 0x0A => LdVxK(x)
    case 0x15 => LdDtVx(x)
    case 0x18 => LdStVx(x)
    case 0x1E => AddI(x)
    case 0x29 => LdF(x)
    case 0x33 => LdB(x)
    case 0x55 => LdMemRegs(x)
    case 0x65 => LdRegsMem(x)
    case _ => Null
  }

  /** The handler `Cycle` reaches for instruction word `w`. A secondary key that names
      no assigned slot resolves to the empty handler. Every operand the handler reads is
      the field of that name of `w`; which handler runs is stated by `DecodeByKey`. */
  function Decode(w: word): (r: Instr)
    ensures r.Null? <==> !Assigned(w)
    ensures HasX(r) ==> r.x == X(w)
    ensures HasY(r) ==> r.y == Y(w)
    ensures HasKK(r) ==> r.kk == KK(w)
    ensures HasNNN(r) ==> r.nnn == NNN(w)
    ensures r.Drw? ==> r.n == N(w)
  {
    match Class(w)
    case 0x0 => Decode0(w)
    case 0x1 => Jp(NNN(w))
    case 0x2 => Call(NNN(w))
    case 0x3 => SeByte(X(w), KK(w))
    case 0x4 => SneByte(X(w), KK(w))
    case 0x5 => SeReg(X(w), Y(w))
    case 0x6 => LdByte(X(w), KK(w))
    case 0x7 => AddByte(X(w), KK(w))
    case 0x8 => Decode8(w)
    case 0x9 => SneReg(X(w), Y(w))
    case 0xA => LdI(NNN(w))
    case 0xB => JpV0(NNN(w))
    case 0xC => Rnd(X(w), KK(w))
    case 0xD => Drw(X(w), Y(w), N(w))
    case 0xE => DecodeE(w)
    case 0xF => DecodeF(w)
  }

  /** The instruction word with class `c` and the three lower nibbles `x`, `y`, `n`. */
  function Word(c: nibble, x: nibble, y: nibble, n: nibble): word
  {
    c * 0x1000 + x * 0x100 + y * 0x10 + n
  }

  /** The fields cut out of a word by the masks put it back together: the four nibbles
      rebuild it, and kk and nnn are its low byte and low twelve bits. */
  lemma FieldsRebuild(w: word)
    ensures Word(Class(w), X(w), Y(w), N(w)) == w
    ensures KK(w) == Y(w) * 0x10 + N(w) && NNN(w) == X(w) * 0x100 + KK(w)
  {
    var b1, n := w / 0x10, w % 0x10;
    var b2, y := b1 / 0x10, b1 % 0x10;
    var c, x := b2 / 0x10, b2 % 0x10;
    SplitAt256(w, b2, y * 0x10 + n);
    SplitAt4096(w, c, x * 0x100 + y * 0x10 + n);
  }

  /** The masks cut out of a word the nibbles it was built from. */
  lemma WordFields(c: nibble, x: nibble, y: nibble, n: nibble)
    ensures Class(Word(c, x, y, n)) == c
    ensures X(Word(c, x, y, n)) == x
    ensures Y(Word(c, x, y, n)) == y
    ensures N(Word(c, x, y, n)) == n
    ensures KK(Word(c, x, y, n)) == y * 0x10 + n
    ensures NNN(Word(c, x, y, n)) == x * 0x100 + y * 0x10 + n
  {
    var w := Word(c, x, y, n);
    SplitAt4096(w, c, x * 0x100 + y * 0x10 + n);
    SplitAt256(w, c * 0x10 + x, y * 0x10 + n);
    SplitAt16(c * 0x10 + x, c, x);
    SplitAt16(w, c * 0x100 + x * 0x10 + y, n);
    SplitAt16(c * 0x100 + x * 0x10 + y, c * 0x10 + x, y);
  }

  /** The canonical instruction word of an instruction: operands the handler ignores
      are zero. */
  function Encode(i: Instr): word
    requires !i.Null?
  {
    match i
    case Cls => Word(0x0, 0, 0xE, 0x0)
    case Ret => Word(0x0, 0, 0xE, 0xE)
    case Jp(nnn) => 0x1000 + nnn
    case Call(nnn) => 0x2000 + nnn
    case SeByte(x, kk) => Word(0x3, x, kk / 0x10, kk % 0x10)
    case SneByte(x, kk) => Word(0x4, x, kk / 0x10, kk % 0x10)
    case SeReg(x, y) => Word(0x5, x, y, 0x0)
    case LdByte(x, kk) => Word(0x6, x, kk / 0x10, kk % 0x10)
    case AddByte(x, kk) => Word(0x7, x, kk / 0x10, kk % 0x10)
    case LdReg(x, y) => Word(0x8, x, y, 0x0)
    case Or(x, y) => Word(0x8, x, y, 0x1)
    case And(x, y) => Word(0x8, x, y, 0x2)
    case Xor(x, y) => Word(0x8, x, y, 0x3)
    case AddReg(x, y) => Word(0x8, x, y, 0x4)
    case Sub(x, y) => Word(0x8, x, y, 0x5)
    case Shr(x) => Word(0x8, x, 0, 0x6)
    case Subn(x, y) => Word(0x8, x, y, 0x7)
    case Shl(x) => Word(0x8, x, 0, 0xE)
    case SneReg(x, y) => Word(0x9, x, y, 0x0)
    case LdI(nnn) => 0xA000 + nnn
    case JpV0(nnn) => 0xB000 + nnn
    case Rnd(x, kk) => Word(0xC, x, kk / 0x10, kk % 0x10)
    case Drw(x, y, n) => Word(0xD, x, y, n)
    case Skp(x) => Word(0xE, x, 0x9, 0xE)
    case Sknp(x) => Word(0xE, x, 0xA, 0x1)
    case LdVxDt(x) => Word(0xF, x, 0x0, 0x7)
    case LdVxK(x) => Word(0xF, x, 0x0, 0xA)
    case LdDtVx(x) => Word(0xF, x, 0x1, 0x5)
    case LdStVx(x) => Word(0xF, x, 0x1, 0x8)
    case AddI(x) => Word(0xF, x, 0x1, 0xE)
    case LdF(x) => Word(0xF, x, 0x2, 0x9)
    case LdB(x) => Word(0xF, x, 0x3, 0x3)
    case LdMemRegs(x) => Word(0xF, x, 0x5, 0x5)
    case LdRegsMem(x) => Word(0xF, x, 0x6, 0x5)
  }

  /** Every handler is reachable: decoding the encoding of an instruction gives it back. */
  lemma DecodeEncode(i: Instr)
    requires !i.Null?
    ensures Assigned(Encode(i))
    ensures Decode(Encode(i)) == i
  {
    match i
    case Jp(_) => DecodeEncodeAddr(i);
    case Call(_) => DecodeEncodeAddr(i);
    case LdI(_) => DecodeEncodeAddr(i);
    case JpV0(_) => DecodeEncodeAddr(i);
    case SeByte(_, _) => DecodeEncodeByte(i);
    case SneByte(_, _) => DecodeEncodeByte(i);
    case LdByte(_, _) => DecodeEncodeByte(i);
    case AddByte(_, _) => DecodeEncodeByte(i);
    case Rnd(_, _) => DecodeEncodeByte(i);
    case Cls => DecodeEncode0(i);
    case Ret => DecodeEncode0(i);
    case SeReg(_, _) => DecodeEncodeRegs(i);
    case SneReg(_, _) => DecodeEncodeRegs(i);
    case Drw(_, _, _) => DecodeEncodeRegs(i);
    case Skp(_) => DecodeEncodeE(i);
    case Sknp(_) => DecodeEncodeE(i);
    case LdReg(_, _) => DecodeEncode8(i);
    case Or(_, _) => DecodeEncode8(i);
    case And(_, _) => DecodeEncode8(i);
    case Xor(_, _) => DecodeEncode8(i);
    case AddReg(_, _) => DecodeEncode8(i);
    case Sub(_, _) => DecodeEncode8(i);
    case Shr(_) => DecodeEncode8(i);
    case Subn(_, _) => DecodeEncode8(i);
    case Shl(_) => DecodeEncode8(i);
    case LdVxDt(_) => DecodeEncodeTimers(i);
    case LdVxK(_) => DecodeEncodeTimers(i);
    case LdDtVx(_) => DecodeEncodeTimers(i);
    case LdStVx(_) => DecodeEncodeTimers(i);
    case AddI(_) => DecodeEncodeIndex(i);
    case LdF(_) => DecodeEncodeIndex(i);
    case LdB(_) => DecodeEncodeIndex(i);
    case LdMemRegs(_) => DecodeEncodeBlock(i);
    case LdRegsMem(_) => DecodeEncodeBlock(i);
  }

  /** The classes with a 12-bit address operand. */
  lemma DecodeEncodeAddr(i: Instr)
    requires i.Jp? || i.Call? || i.LdI? || i.JpV0?
    ensures Assigned(Encode(i)) && Decode(Encode(i)) == i
  {
    match i
    case Jp(nnn) => NnnFields(0x1, nnn);
    case Call(nnn) => NnnFields(0x2, nnn);
    case LdI(nnn) => NnnFields(0xA, nnn);
    case JpV0(nnn) => NnnFields(0xB, nnn);
  }

  /** The classes with a register and a byte operand. */
  lemma DecodeEncodeByte(i: Instr)
    requires i.SeByte? || i.SneByte? || i.LdByte? || i.AddByte? || i.Rnd?
    ensures Assigned(Encode(i)) && Decode(Encode(i)) == i
  {
    match i
    case SeByte(x, kk) => ByteFields(0x3, x, kk);
    case SneByte(x, kk) => ByteFields(0x4, x, kk);
    case LdByte(x, kk) => ByteFields(0x6, x, kk);
    case AddByte(x, kk) => ByteFields(0x7, x, kk);
    case Rnd(x, kk) => ByteFields(0xC, x, kk);
  }

  /** Class 0, the screen clear and the return. */
  lemma DecodeEncode0(i: Instr)
    requires i.Cls? || i.Ret?
    ensures Assigned(Encode(i)) && Decode(Encode(i)) == i
  {
    match i
    case Cls => WordFields(0x0, 0, 0xE, 0x0);
    case Ret => WordFields(0x0, 0, 0xE, 0xE);
  }

  /** Classes 5, 9 and D, with register operands. */
  lemma DecodeEncodeRegs(i: Instr)
    requires i.SeReg? || i.SneReg? || i.Drw?
    ensures Assigned(Encode(i)) && Decode(Encode(i)) == i
  {
    match i
    case SeReg(x, y) => WordFields(0x5, x, y, 0x0);
    case SneReg(x, y) => WordFields(0x9, x, y, 0x0);
    case Drw(x, y, n) => WordFields(0xD, x, y, n);
  }

  /** Class E, the key skips. */
  lemma DecodeEncodeE(i: Instr)
    requires i.Skp? || i.Sknp?
    ensures Assigned(Encode(i)) && Decode(Encode(i)) == i
  {
    match i
    case Skp(x) => WordFields(0xE, x, 0x9, 0xE);
    case Sknp(x) => WordFields(0xE, x, 0xA, 0x1);
  }

  lemma DecodeEncode8(i: Instr)
    requires i.LdReg? || i.Or? || i.And? || i.Xor? || i.AddReg? || i.Sub? || i.Shr? || i.Subn? || i.Shl?
    ensures Assigned(Encode(i)) && Decode(Encode(i)) == i
  {
    match i
    case LdReg(x, y) => WordFields(0x8, x, y, 0x0);
    case Or(x, y) => WordFields(0x8, x, y, 0x1);
    case And(x, y) => WordFields(0x8, x, y, 0x2);
    case Xor(x, y) => WordFields(0x8, x, y, 0x3);
    case AddReg(x, y) => WordFields(0x8, x, y, 0x4);
    case Sub(x, y) => WordFields(0x8, x, y, 0x5);
    case Shr(x) => WordFields(0x8, x, 0, 0x6);
    case Subn(x, y) => WordFields(0x8, x, y, 0x7);
    case Shl(x) => WordFields(0x8, x, 0, 0xE);
  }

  /** Class F, timers and the key wait. */
  lemma DecodeEncodeTimers(i: Instr)
    requires i.LdVxDt? || i.LdVxK? || i.LdDtVx? || i.LdStVx?
    ensures Assigned(Encode(i)) && Decode(Encode(i)) == i
  {
    match i
    case LdVxDt(x) =>
      var w := Word(0xF, x, 0x0, 0x7);
      WordFields(0xF, x, 0x0, 0x7);
      assert Encode(i) == w && DecodeF(w) == i;
    case LdVxK(x) =>
      var w := Word(0xF, x, 0x0, 0xA);
      WordFields(0xF, x, 0x0, 0xA);
      assert Encode(i) == w && DecodeF(w) == i;
    case LdDtVx(x) =>
      var w := Word(0xF, x, 0x1, 0x5);
      WordFields(0xF, x, 0x1, 0x5);
      assert Encode(i) == w && DecodeF(w) == i;
    case LdStVx(x) =>
      var w := Word(0xF, x, 0x1, 0x8);
      WordFields(0xF, x, 0x1, 0x8);
      assert Encode(i) == w && DecodeF(w) == i;
  }

  /** Class F, the index register. */
  lemma DecodeEncodeIndex(i: Instr)
    requires i.AddI? || i.LdF? || i.LdB?
    ensures Assigned(Encode(i)) && Decode(Encode(i)) == i
  {
    match i
    case AddI(x) =>
      var w := Word(0xF, x, 0x1, 0xE);
      WordFields(0xF, x, 0x1, 0xE);
      assert Encode(i) == w && DecodeF(w) == i;
    case LdF(x) =>
      var w := Word(0xF, x, 0x2, 0x9);
      WordFields(0xF, x, 0x2, 0x9);
      assert Encode(i) == w && DecodeF(w) == i;
    case LdB(x) =>
      var w := Word(0xF, x, 0x3, 0x3);
      WordFields(0xF, x, 0x3, 0x3);
      assert Encode(i) == w && DecodeF(w) == i;
  }

  /** Class F, the register block copies. */
  lemma DecodeEncodeBlock(i: Instr)
    requires i.LdMemRegs? || i.LdRegsMem?
    ensures Assigned(Encode(i)) && Decode(Encode(i)) == i
  {
    match i
    case LdMemRegs(x) =>
      var w := Word(0xF, x, 0x5, 0x5);
      WordFields(0xF, x, 0x5, 0x5);
      assert Encode(i) == w && DecodeF(w) == i;
    case LdRegsMem(x) =>
      var w := Word(0xF, x, 0x6, 0x5);
      WordFields(0xF, x, 0x6, 0x5);
      assert Encode(i) == w && DecodeF(w) == i;
  }

  /** Dispatch reads the class and the secondary key and nothing else: a filled slot
      selects the instruction whose canonical word has the class of `w` and its key, the
      low nibble for classes 0, 8 and E and the low byte for class F. Together with the
      operands `Decode` promises, this fixes the instruction; nibbles that neither the key
      nor the handler reads are ignored, so 0x0000 clears the screen and 8xy6 ignores y. */
  lemma DecodeByKey(w: word)
    ensures var r := Decode(w); !r.Null? ==> Class(Encode(r)) == Class(w)
    ensures var r := Decode(w); !r.Null? && Class(w) in {0x0, 0x8, 0xE} ==> N(Encode(r)) == N(w)
    ensures var r := Decode(w); !r.Null? && Class(w) == 0xF ==> KK(Encode(r)) == KK(w)
  {
    match Class(w)
    case 0x0 => Decode0Key(w);
    case 0x1 => NnnFields(0x1, NNN(w));
    case 0x2 => NnnFields(0x2, NNN(w));
    case 0x3 => ByteFields(0x3, X(w), KK(w));
    case 0x4 => ByteFields(0x4, X(w), KK(w));
    case 0x5 => WordFields(0x5, X(w), Y(w), 0x0);
    case 0x6 => ByteFields(0x6, X(w), KK(w));
    case 0x7 => ByteFields(0x7, X(w), KK(w));
    case 0x8 => Decode8Key(w);
    case 0x9 => WordFields(0x9, X(w), Y(w), 0x0);
    case 0xA => NnnFields(0xA, NNN(w));
    case 0xB => NnnFields(0xB, NNN(w));
    case 0xC => ByteFields(0xC, X(w), KK(w));
    case 0xD => WordFields(0xD, X(w), Y(w), N(w));
    case 0xE => DecodeEKey(w);
    case 0xF => DecodeFKey(w);
  }

  /** `table0` selects by the low nibble alone: any 0nn0 clears the screen and any 0nnE
      returns. */
  lemma Decode0Key(w: word)
    ensures var r := Decode0(w); !r.Null? ==> Class(Encode(r)) == 0x0 && N(Encode(r)) == N(w)
  {
    var r := Decode0(w);
    if r == Cls {
      assert Encode(r) == 0x00E0;
    } else if r == Ret {
      assert Encode(r) == 0x00EE;
    }
  }

  /** `table8` selects by the low nibble alone; 8xy6 and 8xyE ignore y. */
  lemma Decode8Key(w: word)
    ensures var r := Decode8(w); !r.Null? ==> Class(Encode(r)) == 0x8 && N(Encode(r)) == N(w)
  {
    var r := Decode8(w);
    if !r.Null? {
      var y := if r.Shr? || r.Shl? then 0 else Y(w);
      WordFields(0x8, X(w), y, N(w));
      assert Encode(r) == Word(0x8, X(w), y, N(w));
    }
  }

  /** `tableE` selects by the low nibble alone: Exy1 is SKNP and ExyE is SKP for every y. */
  lemma DecodeEKey(w: word)
    ensures var r := DecodeE(w); !r.Null? ==> Class(Encode(r)) == 0xE && N(Encode(r)) == N(w)
  {
    if N(w) == 0x1 {
      WordFields(0xE, X(w), 0xA, 0x1);
    } else if N(w) == 0xE {
      WordFields(0xE, X(w), 0x9, 0xE);
    }
  }

  /** `tableF` selects by the low byte. */
  lemma DecodeFKey(w: word)
    ensures var r := DecodeF(w); !r.Null? ==> Class(Encode(r)) == 0xF && KK(Encode(r)) == KK(w)
  {
    var r := DecodeF(w);
    if !r.Null? {
      ByteFields(0xF, X(w), KK(w));
      assert Encode(r) == Word(0xF, X(w), KK(w) / 0x10, KK(w) % 0x10);
    }
  }

  lemma SplitAt16(w: int, q: int, r: int)
    requires 0 <= r < 0x10 && w == q * 0x10 + r
    ensures w / 0x10 == q && w % 0x10 == r
  {
  }

  lemma SplitAt256(w: int, q: int, r: int)
    requires 0 <= r < 0x100 && w == q * 0x100 + r
    ensures w / 0x100 == q && w % 0x100 == r
  {
  }

  lemma SplitAt4096(w: int, q: int, r: int)
    requires 0 <= r < 0x1000 && w == q * 0x1000 + r
    ensures w / 0x1000 == q && w % 0x1000 == r
  {
  }

  lemma ByteFields(c: nibble, x: nibble, kk: byte)
    ensures Class(Word(c, x, kk / 0x10, kk % 0x10)) == c
    ensures X(Word(c, x, kk / 0x10, kk % 0x10)) == x
    ensures KK(Word(c, x, kk / 0x10, kk % 0x10)) == kk
  {
    WordFields(c, x, kk / 0x10, kk % 0x10);
  }

  lemma NnnFields(c: nibble, nnn: addr)
    ensures Class(c * 0x1000 + nnn) == c && NNN(c * 0x1000 + nnn) == nnn
  {
  }
}
