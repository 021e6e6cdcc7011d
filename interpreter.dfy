/** The interpreter object: the machine state in arrays and fields that its methods
    update in place. Every method is proved to do what the matching function of
    `Semantics` says, so the properties proved about those functions hold of it. */
module Interpreter {
  import opened Words
  import opened Opcodes
  import opened Display
  import opened Semantics

  class Chip8 {
    const registers: array<byte>
    const memory: array<byte>
    var index: word
    var pc: word
    const stack: array<word>
    var sp: byte
    var delayTimer: byte
    var soundTimer: byte
    /** Written by the host between cycles; nonzero means the key is down. */
    const keypad: array<byte>
    const video: array<u32>
    var opcode: word

    /** The object's state as a value. */
    ghost function Abs(): State
      reads this, registers, memory, stack, keypad, video
    {
      State(registers[..], memory[..], index, pc, stack[..], sp, delayTimer, soundTimer,
            keypad[..], video[..], opcode)
    }

    /** The three byte arrays are distinct objects and the state is well shaped. */
    ghost predicate Valid()
      reads this, registers, memory, stack, keypad, video
    {
      registers != memory && registers != keypad && memory != keypad && Shaped(Abs())
    }

    /** Zero-initialised state, the glyphs copied to 0x50, `pc` at 0x200. */
    constructor ()
      ensures Valid() && Abs() == Initial()
      ensures fresh(registers) && fresh(memory) && fresh(stack) && fresh(keypad) && fresh(video)
    {
      registers := new byte[16](_ => 0);
      memory := new byte[MEMORY_SIZE](_ => 0);
      index := 0;
      stack := new word[16](_ => 0);
      sp := 0;
      delayTimer, soundTimer := 0, 0;
      keypad := new byte[16](_ => 0);
      video := new u32[VIDEO_SIZE](_ => 0);
      opcode := 0;
      pc := START_ADDRESS;
      new;
      var i := 0;
      while i < FONTSET_SIZE
        modifies memory
        invariant 0 <= i <= FONTSET_SIZE
        invariant forall a :: 0 <= a < MEMORY_SIZE ==>
          memory[a] == if FONTSET_START_ADDRESS <= a < FONTSET_START_ADDRESS + i then FONTSET[a - FONTSET_START_ADDRESS] else 0
      {
        memory[FONTSET_START_ADDRESS + i] := FONTSET[i];
        i := i + 1;
      }
      assert memory[..] == Initial().memory;
      assert registers[..] == Initial().registers;
      assert stack[..] == Initial().stack;
      assert keypad[..] == Initial().keypad;
      assert video[..] == Initial().video;
    }

    /** The copy loop of `LoadRom`: `image` is written to memory from 0x200 on. */
    method LoadImage(image: seq<byte>)
      requires Valid() && |image| <= MEMORY_SIZE - START_ADDRESS
      modifies memory
      ensures Valid() && Abs() == Load(old(Abs()), image)
    {
      var i := 0;
      while i < |image|
        invariant 0 <= i <= |image|
        invariant memory[..] == WriteBlock(old(memory[..]), START_ADDRESS, image[..i])
      {
        memory[START_ADDRESS + i] := image[i];
        i := i + 1;
      }
      assert image[..i] == image;
    }

    /** One fetch/execute cycle; `rnd` is the byte the random engine yields if the
        instruction is Cxkk. */
    method Cycle(rnd: byte)
      requires Valid() && CanStep(Abs())
      modifies this, registers, memory, stack, video
      ensures Valid() && Abs() == Step(old(Abs()), rnd)
    {
      opcode := memory[pc] as int * 0x100 + memory[pc + 1];
      pc := Wrap16(pc + 2);
      assert Abs() == Fetched(old(Abs()));
      Execute(Decode(opcode), rnd);
      if delayTimer > 0 {
        delayTimer := delayTimer - 1;
      }
      if soundTimer > 0 {
        soundTimer := soundTimer - 1;
      }
    }

    /** The main dispatch table: runs the handler of the instruction `Decode` chose,
        through the secondary table of its class where it has one. */
    method Execute(i: Instr, rnd: byte)
      requires Valid() && Defined(Abs(), i)
      modifies this, registers, memory, stack, video
      ensures Valid() && Abs() == Exec(old(Abs()), i, rnd)
    {
      if !i.Rnd? {
        ExecIgnoresRnd(Abs(), i, rnd);
      }
      match i
      case Null => OpNull();
      case Cls => Table0(i);
      case Ret => Table0(i);
      case Jp(nnn) => Op1nnn(nnn);
      case Call(nnn) => Op2nnn(nnn);
      case SeByte(x, kk) => Op3xkk(x, kk);
      case SneByte(x, kk) => Op4xkk(x, kk);
      case SeReg(x, y) => Op5xy0(x, y);
      case LdByte(x, kk) => Op6xkk(x, kk);
      case AddByte(x, kk) => Op7xkk(x, kk);
      case SneReg(x, y) => Op9xy0(x, y);
      case LdI(nnn) => OpAnnn(nnn);
      case JpV0(nnn) => OpBnnn(nnn);
      case Rnd(x, kk) => OpCxkk(x, kk, rnd);
      case Drw(x, y, n) => OpDxyn(x, y, n);
      case Skp(x) => TableE(i);
      case Sknp(x) => TableE(i);
      case LdReg(_, _) => Table8(i);
      case Or(_, _) => Table8(i);
      case And(_, _) => Table8(i);
      case Xor(_, _) => Table8(i);
      case AddReg(_, _) => Table8(i);
      case Sub(_, _) => Table8(i);
      case Shr(_) => Table8(i);
      case Subn(_, _) => Table8(i);
      case Shl(_) => Table8(i);
      case LdVxDt(_) => TableF(i);
      case LdVxK(_) => TableF(i);
      case LdDtVx(_) => TableF(i);
      case LdStVx(_) => TableF(i);
      case AddI(_) => TableF(i);
      case LdF(_) => TableF(i);
      case LdB(_) => TableF(i);
      case LdMemRegs(_) => TableF(i);
      case LdRegsMem(_) => TableF(i);
    }

    /** `table0`: clear screen and return. */
    method Table0(i: Instr)
      requires Valid() && (i.Cls? || i.Ret?) && Defined(Abs(), i)
      modifies this, video
      ensures Valid() && Abs() == Exec(old(Abs()), i, 0)
    {
      match i
      case Cls => Op00E0();
      case Ret => Op00EE();
    }

    /** `table8`: the register-register operations. */
    method Table8(i: Instr)
      requires Valid()
      requires i.LdReg? || i.Or? || i.And? || i.Xor? || i.AddReg? || i.Sub? || i.Shr? || i.Subn? || i.Shl?
      modifies registers
      ensures Valid() && Abs() == Exec(old(Abs()), i, 0)
    {
      match i
      case LdReg(x, y) => Op8xy0(x, y);
      case Or(x, y) => Op8xy1(x, y);
      case And(x, y) => Op8xy2(x, y);
      case Xor(x, y) => Op8xy3(x, y);
      case AddReg(x, y) => Op8xy4(x, y);
      case Sub(x, y) => Op8xy5(x, y);
      case Shr(x) => Op8xy6(x);
      case Subn(x, y) => Op8xy7(x, y);
      case Shl(x) => Op8xyE(x);
    }

    /** `tableE`: the key skips. */
    method TableE(i: Instr)
      requires Valid() && (i.Skp? || i.Sknp?) && Defined(Abs(), i)
      modifies this
      ensures Valid() && Abs() == Exec(old(Abs()), i, 0)
    {
      match i
      case Skp(x) => OpEx9E(x);
      case Sknp(x) => OpExA1(x);
    }

    /** `tableF`: timers, key wait, index register, BCD and the block copies. */
    method TableF(i: Instr)
      requires Valid() && Defined(Abs(), i)
      requires i.LdVxDt? || i.LdVxK? || i.LdDtVx? || i.LdStVx? || i.AddI? || i.LdF? || i.LdB? || i.LdMemRegs? || i.LdRegsMem?
      modifies this, registers, memory
      ensures Valid() && Abs() == Exec(old(Abs()), i, 0)
    {
      match i
      case LdVxDt(x) => OpFx07(x);
      case LdVxK(x) => OpFx0A(x);
      case LdDtVx(x) => OpFx15(x);
      case LdStVx(x) => OpFx18(x);
      case AddI(x) => OpFx1E(x);
      case LdF(x) => OpFx29(x);
      case LdB(x) => OpFx33(x);
      case LdMemRegs(x) => OpFx55(x);
      case LdRegsMem(x) => OpFx65(x);
    }

    /** The empty handler. */
    method OpNull()
      requires Valid()
      ensures Valid() && Abs() == Exec(old(Abs()), Null, 0)
    {
    }

    /** CLS: every cell off. */
    method Op00E0()
      requires Valid()
      modifies video
      ensures Valid() && Abs() == Exec(old(Abs()), Cls, 0)
    {
      var k := 0;
      while k < video.Length
        invariant 0 <= k <= video.Length
        invariant forall j :: 0 <= j < k ==> video[j] == 0
      {
        video[k] := 0;
        k := k + 1;
      }
      assert video[..] == seq(VIDEO_SIZE, _ => 0);
    }

    /** RET */
    method Op00EE()
      requires Valid() && Defined(Abs(), Ret)
      modifies this
      ensures Valid() && Abs() == Exec(old(Abs()), Ret, 0)
    {
      sp := sp - 1;
      pc := stack[sp];
    }

    /** JP addr */
    method Op1nnn(nnn: addr)
      requires Valid()
      modifies this
      ensures Valid() && Abs() == Exec(old(Abs()), Jp(nnn), 0)
    {
      pc := nnn;
    }

    /** CALL addr */
    method Op2nnn(nnn: addr)
      requires Valid() && Defined(Abs(), Call(nnn))
      modifies this, stack
      ensures Valid() && Abs() == Exec(old(Abs()), Call(nnn), 0)
    {
      stack[sp] := pc;
      sp := sp + 1;
      pc := nnn;
    }

    /** SE Vx, byte */
    method Op3xkk(x: nibble, kk: byte)
      requires Valid()
      modifies this
      ensures Valid() && Abs() == Exec(old(Abs()), SeByte(x, kk), 0)
    {
      if registers[x] == kk {
        pc := Wrap16(pc + 2);
      }
    }

    /** SNE Vx, byte */
    method Op4xkk(x: nibble, kk: byte)
      requires Valid()
      modifies this
      ensures Valid() && Abs() == Exec(old(Abs()), SneByte(x, kk), 0)
    {
      if registers[x] != kk {
        pc := Wrap16(pc + 2);
      }
    }

    /** SE Vx, Vy */
    method Op5xy0(x: nibble, y: nibble)
      requires Valid()
      modifies this
      ensures Valid() && Abs() == Exec(old(Abs()), SeReg(x, y), 0)
    {
      if registers[x] == registers[y] {
        pc := Wrap16(pc + 2);
      }
    }

    /** LD Vx, byte */
    method Op6xkk(x: nibble, kk: byte)
      requires Valid()
      modifies registers
      ensures Valid() && Abs() == Exec(old(Abs()), LdByte(x, kk), 0)
    {
      registers[x] := kk;
    }

    /** ADD Vx, byte (no flag) */
    method Op7xkk(x: nibble, kk: byte)
      requires Valid()
      modifies registers
      ensures Valid() && Abs() == Exec(old(Abs()), AddByte(x, kk), 0)
    {
      registers[x] := Wrap8(registers[x] as int + kk);
    }

    /** LD Vx, Vy */
    method Op8xy0(x: nibble, y: nibble)
      requires Valid()
      modifies registers
      ensures Valid() && Abs() == Exec(old(Abs()), LdReg(x, y), 0)
    {
      registers[x] := registers[y];
    }

    /** OR Vx, Vy */
    method Op8xy1(x: nibble, y: nibble)
      requires Valid()
      modifies registers
      ensures Valid() && Abs() == Exec(old(Abs()), Or(x, y), 0)
    {
      registers[x] := Or8(registers[x], registers[y]);
    }

    /** AND Vx, Vy */
    method Op8xy2(x: nibble, y: nibble)
      requires Valid()
      modifies registers
      ensures Valid() && Abs() == Exec(old(Abs()), And(x, y), 0)
    {
      registers[x] := And8(registers[x], registers[y]);
    }

    /** XOR Vx, Vy */
    method Op8xy3(x: nibble, y: nibble)
      requires Valid()
      modifies registers
      ensures Valid() && Abs() == Exec(old(Abs()), Xor(x, y), 0)
    {
      registers[x] := Xor8(registers[x], registers[y]);
    }

    /** ADD Vx, Vy: VF = carry, computed from the sum taken first. */
    method Op8xy4(x: nibble, y: nibble)
      requires Valid()
      modifies registers
      ensures Valid() && Abs() == Exec(old(Abs()), AddReg(x, y), 0)
    {
      var sum := registers[x] as int + registers[y];
      if sum > 255 {
        registers[VF] := 1;
      } else {
        registers[VF] := 0;
      }
      registers[x] := sum % 0x100;
    }

    /** SUB Vx, Vy: VF = 1 iff Vx > Vy, then Vx -= Vy. */
    method Op8xy5(x: nibble, y: nibble)
      requires Valid()
      modifies registers
      ensures Valid() && Abs() == Exec(old(Abs()), Sub(x, y), 0)
    {
      if registers[x] > registers[y] {
        registers[VF] := 1;
      } else {
        registers[VF] := 0;
      }
      registers[x] := Wrap8(registers[x] as int - registers[y]);
    }

    /** SHR Vx: VF = least significant bit, then Vx >>= 1; Vy is not read. */
    method Op8xy6(x: nibble)
      requires Valid()
      modifies registers
      ensures Valid() && Abs() == Exec(old(Abs()), Shr(x), 0)
    {
      registers[VF] := registers[x] % 2;
      registers[x] := registers[x] / 2;
    }

    /** SUBN Vx, Vy: VF = 1 iff Vy > Vx, then Vx = Vy - Vx. */
    method Op8xy7(x: nibble, y: nibble)
      requires Valid()
      modifies registers
      ensures Valid() && Abs() == Exec(old(Abs()), Subn(x, y), 0)
    {
      if registers[y] > registers[x] {
        registers[VF] := 1;
      } else {
        registers[VF] := 0;
      }
      registers[x] := Wrap8(registers[y] as int - registers[x]);
    }

    /** SHL Vx: VF = most significant bit, then Vx <<= 1; Vy is not read. */
    method Op8xyE(x: nibble)
      requires Valid()
      modifies registers
      ensures Valid() && Abs() == Exec(old(Abs()), Shl(x), 0)
    {
      registers[VF] := registers[x] / 0x80;
      registers[x] := Wrap8(registers[x] as int * 2);
    }

    /** SNE Vx, Vy */
    method Op9xy0(x: nibble, y: nibble)
      requires Valid()
      modifies this
      ensures Valid() && Abs() == Exec(old(Abs()), SneReg(x, y), 0)
    {
      if registers[x] != registers[y] {
        pc := Wrap16(pc + 2);
      }
    }

    /** LD I, addr */
    method OpAnnn(nnn: addr)
      requires Valid()
      modifies this
      ensures Valid() && Abs() == Exec(old(Abs()), LdI(nnn), 0)
    {
      index := nnn;
    }

    /** JP V0, addr: the sum is not reduced to 12 bits. */
    method OpBnnn(nnn: addr)
      requires Valid()
      modifies this
      ensures Valid() && Abs() == Exec(old(Abs()), JpV0(nnn), 0)
    {
      pc := nnn + registers[0];
    }

    /** RND Vx, byte */
    method OpCxkk(x: nibble, kk: byte, rnd: byte)
      requires Valid()
      modifies registers
      ensures Valid() && Abs() == Exec(old(Abs()), Rnd(x, kk), rnd)
    {
      registers[x] := And8(rnd, kk);
    }

    /** DRW Vx, Vy, nibble: XOR the sprite at I onto the screen, VF = 1 on an erased cell. */
    method OpDxyn(x: nibble, y: nibble, n: nibble)
      requires Valid() && Defined(Abs(), Drw(x, y, n))
      modifies registers, video
      ensures Valid() && Abs() == Exec(old(Abs()), Drw(x, y, n), 0)
    {
      var ox := registers[x] % VIDEO_WIDTH;
      var oy := registers[y] % VIDEO_HEIGHT;
      ghost var sprite := Sprite(Abs(), n);
      ghost var before := video[..];
      ghost var flag := registers[VF];
      DrawnNothing(before, sprite, ox, oy);
      var row := 0;
      while row < n
        invariant 0 <= row <= n && Valid()
        invariant video[..] == Drawn(before, sprite, ox, oy, Visit(row, 0))
        invariant registers[..] == old(registers[..])[VF := if Collides(before, sprite, ox, oy, Visit(row, 0)) then 1 else flag]
      {
        var spriteByte := memory[index + row];
        BlitRow(ox, oy, row, spriteByte, sprite, before, flag, old(registers[..]));
        row := row + 1;
      }
    }

    /** The inner loop of Dxyn: the eight columns of sprite row `row`, most significant
        bit first. */
    method BlitRow(ox: nat, oy: nat, row: nat, spriteByte: byte,
                   ghost sprite: seq<byte>, ghost before: seq<u32>, ghost flag: byte, ghost regs: seq<byte>)
      requires registers.Length == 16 && video.Length == VIDEO_SIZE
      requires row < |sprite| && sprite[row] == spriteByte && |regs| == 16
      requires AllBinary(before) && |before| == VIDEO_SIZE && Fits(sprite, ox, oy)
      requires video[..] == Drawn(before, sprite, ox, oy, Visit(row, 0))
      requires registers[..] == regs[VF := if Collides(before, sprite, ox, oy, Visit(row, 0)) then 1 else flag]
      modifies registers, video
      ensures video[..] == Drawn(before, sprite, ox, oy, Visit(row + 1, 0))
      ensures registers[..] == regs[VF := if Collides(before, sprite, ox, oy, Visit(row + 1, 0)) then 1 else flag]
    {
      var col := 0;
      while col < 8
        invariant 0 <= col <= 8
        invariant video[..] == Drawn(before, sprite, ox, oy, Visit(row, col))
        invariant registers[..] == regs[VF := if Collides(before, sprite, ox, oy, Visit(row, col)) then 1 else flag]
      {
        DrawnStep(before, sprite, ox, oy, row, col);
        if BitSet(spriteByte, col) {
          var cell := (oy + row) * VIDEO_WIDTH + (ox + col);
          assert cell == Cell(ox, oy, row, col);
          if video[cell] == PIXEL_ON {
            registers[VF] := 1;
          }
          video[cell] := Toggle(video[cell]);
        }
        col := col + 1;
      }
    }

    /** SKP Vx */
    method OpEx9E(x: nibble)
      requires Valid() && Defined(Abs(), Skp(x))
      modifies this
      ensures Valid() && Abs() == Exec(old(Abs()), Skp(x), 0)
    {
      var key := registers[x];
      if keypad[key] != 0 {
        pc := Wrap16(pc + 2);
      }
    }

    /** SKNP Vx */
    method OpExA1(x: nibble)
      requires Valid() && Defined(Abs(), Sknp(x))
      modifies this
      ensures Valid() && Abs() == Exec(old(Abs()), Sknp(x), 0)
    {
      var key := registers[x];
      if keypad[key] == 0 {
        pc := Wrap16(pc + 2);
      }
    }

    /** LD Vx, DT */
    method OpFx07(x: nibble)
      requires Valid()
      modifies registers
      ensures Valid() && Abs() == Exec(old(Abs()), LdVxDt(x), 0)
    {
      registers[x] := delayTimer;
    }

    /** LD Vx, K: the lowest pressed key, or `pc -= 2` so that the instruction repeats. */
    method OpFx0A(x: nibble)
      requires Valid()
      modifies this, registers
      ensures Valid() && Abs() == Exec(old(Abs()), LdVxK(x), 0)
    {
      var key := FirstPressed(keypad[..]);
      if key < 16 {
        registers[x] := key;
      } else {
        pc := Wrap16(pc - 2);
      }
    }

    /** LD DT, Vx */
    method OpFx15(x: nibble)
      requires Valid()
      modifies this
      ensures Valid() && Abs() == Exec(old(Abs()), LdDtVx(x), 0)
    {
      delayTimer := registers[x];
    }

    /** LD ST, Vx */
    method OpFx18(x: nibble)
      requires Valid()
      modifies this
      ensures Valid() && Abs() == Exec(old(Abs()), LdStVx(x), 0)
    {
      soundTimer := registers[x];
    }

    /** ADD I, Vx: 16-bit wrap-around, no flag. */
    method OpFx1E(x: nibble)
      requires Valid()
      modifies this
      ensures Valid() && Abs() == Exec(old(Abs()), AddI(x), 0)
    {
      index := Wrap16(index + registers[x]);
    }

    /** LD F, Vx: the whole register value selects the glyph. */
    method OpFx29(x: nibble)
      requires Valid()
      modifies this
      ensures Valid() && Abs() == Exec(old(Abs()), LdF(x), 0)
    {
      var digit := registers[x];
      index := FONTSET_START_ADDRESS + 5 * digit as int;
    }

    /** LD B, Vx: ones, tens, hundreds digit at I + 2, I + 1, I. */
    method OpFx33(x: nibble)
      requires Valid() && Defined(Abs(), LdB(x))
      modifies memory
      ensures Valid() && Abs() == Exec(old(Abs()), LdB(x), 0)
    {
      var value := registers[x];
      memory[index + 2] := value % 10;
      value := value / 10;
      memory[index + 1] := value % 10;
      value := value / 10;
      memory[index] := value % 10;
    }

    /** LD [I], Vx: V0..Vx to memory from I on; I is left as it is. */
    method OpFx55(x: nibble)
      requires Valid() && Defined(Abs(), LdMemRegs(x))
      modifies memory
      ensures Valid() && Abs() == Exec(old(Abs()), LdMemRegs(x), 0)
    {
      var i := 0;
      while i <= x
        invariant 0 <= i <= x + 1
        invariant memory[..] == WriteBlock(old(memory[..]), index, registers[..i])
      {
        memory[index + i] := registers[i];
        i := i + 1;
      }
    }

    /** LD Vx, [I]: memory from I on to V0..Vx; I is left as it is. */
    method OpFx65(x: nibble)
      requires Valid() && Defined(Abs(), LdRegsMem(x))
      modifies registers
      ensures Valid() && Abs() == Exec(old(Abs()), LdRegsMem(x), 0)
    {
      var i := 0;
      while i <= x
        invariant 0 <= i <= x + 1
        invariant forall j :: 0 <= j < 16 ==> registers[j] == if j < i then memory[index + j] else old(registers[j])
      {
        registers[i] := memory[index + i];
        i := i + 1;
      }
      assert registers[..] == memory[index..index + x + 1] + old(registers[..])[x + 1..];
    }
  }
}
