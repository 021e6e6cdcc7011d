/** What the interpreter promises, proved about the reference semantics: the state after
    construction and loading, the fetch and the timers of a cycle, the skips, the
    call/return pair, the flags of the arithmetic instructions, the sprite blit, the key
    wait, the decimal conversion and the register block copies. */
module Properties {
  import opened Words
  import opened Opcodes
  import opened Display
  import opened Semantics

  // ---------------------------------------------------------------- construction, loading

  /** After the constructor: `pc` at 0x200, the glyphs at 0x50..0x9F, every other byte,
      register, stack slot, key, cell, timer and pointer zero. */
  lemma InitialState()
    ensures var s := Initial();
      s.pc == START_ADDRESS && s.index == 0 && s.sp == 0 && s.opcode == 0
      && s.delayTimer == 0 && s.soundTimer == 0
      && (forall r :: 0 <= r < 16 ==> s.registers[r] == 0 && s.stack[r] == 0 && s.keypad[r] == 0)
      && (forall k :: 0 <= k < VIDEO_SIZE ==> s.video[k] == 0)
      && (forall a :: 0 <= a < MEMORY_SIZE ==>
            s.memory[a] == if FONTSET_START_ADDRESS <= a < FONTSET_START_ADDRESS + FONTSET_SIZE
                           then FONTSET[a - FONTSET_START_ADDRESS] else 0)
  {
  }

  /** The glyph table: 80 bytes, five per hexadecimal digit, ending below the program area. */
  lemma FontLayout()
    ensures |FONTSET| == FONTSET_SIZE == 5 * 16
    ensures FONTSET_START_ADDRESS + FONTSET_SIZE <= START_ADDRESS
  {
  }

  /** The glyphs lie in memory where the constructor put them. */
  predicate FontIntact(s: State)
    requires Shaped(s)
  {
    forall k :: 0 <= k < FONTSET_SIZE ==> s.memory[FONTSET_START_ADDRESS + k] == FONTSET[k]
  }

  /** Loading an image puts it at 0x200 and leaves everything below 0x200 (so the glyphs)
      and every other field as it was. */
  lemma LoadPlacesImage(s: State, image: seq<byte>)
    requires Shaped(s) && |image| <= MEMORY_SIZE - START_ADDRESS
    ensures var r := Load(s, image);
      r.memory[START_ADDRESS..START_ADDRESS + |image|] == image
      && r.memory[..START_ADDRESS] == s.memory[..START_ADDRESS]
      && r.memory[START_ADDRESS + |image|..] == s.memory[START_ADDRESS + |image|..]
      && r.(memory := s.memory) == s
    ensures Shaped(s) && FontIntact(s) ==> FontIntact(Load(s, image))
  {
    var r := Load(s, image);
    assert r.memory[..START_ADDRESS] == s.memory[..START_ADDRESS];
  }

  /** Fx29 points I at the five rows of the glyph of digit Vx. */
  lemma GlyphAddress(s: State, x: nibble)
    requires Shaped(s) && FontIntact(s) && s.registers[x] < 16
    ensures var r, d := Exec(s, LdF(x), 0), s.registers[x];
      r.index + 5 <= START_ADDRESS && Sprite(r, 5) == FONTSET[5 * d..5 * d + 5]
  {
    var r, d := Exec(s, LdF(x), 0), s.registers[x];
    var glyph := FONTSET[5 * d..5 * d + 5];
    forall j | 0 <= j < 5
      ensures Sprite(r, 5)[j] == glyph[j]
    {
      assert Sprite(r, 5)[j] == s.memory[FONTSET_START_ADDRESS + (5 * d + j)];
    }
  }

  // ---------------------------------------------------------------- the cycle

  /** The byte at `pc` holds the class and X nibbles of the fetched word, the byte at
      `pc + 1` its kk byte. */
  lemma FetchFields(s: State)
    requires Shaped(s) && s.pc + 1 < MEMORY_SIZE
    ensures Class(Fetch(s)) == s.memory[s.pc] / 0x10 && X(Fetch(s)) == s.memory[s.pc] % 0x10
    ensures KK(Fetch(s)) == s.memory[s.pc + 1]
  {
  }

  /** A timer drops by one per cycle, down to zero. */
  function Dec(t: byte): byte
  {
    if t > 0 then t - 1 else 0
  }

  /** One handler leaves the keypad and the fetched word alone, writes a timer only for
      Fx15/Fx18, the stack only for a call, memory only for Fx33/Fx55 and the screen only
      for 00E0/Dxyn. */
  lemma ExecFrame(s: State, i: Instr, rnd: byte)
    requires Shaped(s) && Defined(s, i)
    ensures var r := Exec(s, i, rnd);
      r.keypad == s.keypad && r.opcode == s.opcode
      && r.delayTimer == (if i.LdDtVx? then s.registers[i.x] else s.delayTimer)
      && r.soundTimer == (if i.LdStVx? then s.registers[i.x] else s.soundTimer)
      && (!i.Call? ==> r.stack == s.stack)
      && (!(i.LdB? || i.LdMemRegs?) ==> r.memory == s.memory)
      && (!(i.Cls? || i.Drw?) ==> r.video == s.video)
  {
  }

  /** A cycle records the fetched word and counts each running timer down once, after the
      handler: Fx15 with Vx = k leaves the delay timer at k - 1 (at 0 when k is 0). */
  lemma StepTimers(s: State, rnd: byte)
    requires CanStep(s)
    ensures var i, r := Decode(Fetch(s)), Step(s, rnd);
      r.opcode == s.memory[s.pc] as int * 0x100 + s.memory[s.pc + 1]
      && r.delayTimer == Dec(if i.LdDtVx? then s.registers[i.x] else s.delayTimer)
      && r.soundTimer == Dec(if i.LdStVx? then s.registers[i.x] else s.soundTimer)
  {
    ExecFrame(Fetched(s), Decode(Fetch(s)), rnd);
  }

  // ---------------------------------------------------------------- skips

  predicate IsSkip(i: Instr)
  {
    i.SeByte? || i.SneByte? || i.SeReg? || i.SneReg? || i.Skp? || i.Sknp?
  }

  /** The condition under which a skip instruction skips, as the technical reference
      words it. */
  predicate Skips(s: State, i: Instr)
    requires Shaped(s) && IsSkip(i) && ((i.Skp? || i.Sknp?) ==> s.registers[i.x] < 16)
  {
    match i
    case SeByte(x, kk) => s.registers[x] == kk
    case SneByte(x, kk) => !(s.registers[x] == kk)
    case SeReg(x, y) => s.registers[x] == s.registers[y]
    case SneReg(x, y) => !(s.registers[x] == s.registers[y])
    case Skp(x) => s.keypad[s.registers[x]] != 0
    case Sknp(x) => !(s.keypad[s.registers[x]] != 0)
  }

  /** A skip moves `pc` on by 4 when its condition holds and by 2 otherwise; apart from
      the fetched word and the timers nothing else changes. */
  lemma StepSkip(s: State, rnd: byte)
    requires CanStep(s) && IsSkip(Decode(Fetch(s)))
    ensures var i, r := Decode(Fetch(s)), Step(s, rnd);
      r.pc == s.pc + (if Skips(s, i) then 4 else 2)
      && r == Tick(s.(opcode := Fetch(s), pc := r.pc))
  {
  }

  // ---------------------------------------------------------------- subroutines

  /** CALL pushes the address of the next instruction; a later RET executed with the same
      stack depth and the same stack below it comes back to that address with the stack
      pointer and the callers' stack slots as they were before the call. */
  lemma CallReturn(s: State, t: State, rnd: byte, rnd': byte)
    requires CanStep(s) && Decode(Fetch(s)).Call?
    requires CanStep(t) && Decode(Fetch(t)).Ret?
    requires t.sp == Step(s, rnd).sp && t.stack[..t.sp] == Step(s, rnd).stack[..t.sp]
    ensures Step(s, rnd).pc == Decode(Fetch(s)).nnn && Step(s, rnd).sp == s.sp + 1
    ensures var r := Step(t, rnd');
      r.pc == s.pc + 2 && r.sp == s.sp && r.stack[..r.sp] == s.stack[..s.sp]
  {
    var c := Step(s, rnd);
    assert c.stack[s.sp] == s.pc + 2;
    assert t.stack[s.sp] == t.stack[..t.sp][s.sp];
    var r := Step(t, rnd');
    assert r.stack[..r.sp] == t.stack[..t.sp][..s.sp];
  }

  // ---------------------------------------------------------------- arithmetic

  /** The handler wrote at most registers `x` and VF and nothing outside the registers. */
  predicate OnlyWrites(s: State, r: State, x: nibble)
    requires |s.registers| == 16 && |r.registers| == 16
  {
    r.(registers := s.registers) == s
    && forall k :: 0 <= k < 16 && k != x && k != VF ==> r.registers[k] == s.registers[k]
  }

  /** 8xy4: result and carry together make the 9-bit sum; with x = F the flag is
      overwritten by the low byte of the sum. */
  lemma AddCarry(s: State, x: nibble, y: nibble)
    requires Shaped(s)
    ensures var V: seq<int>, W: seq<int> := s.registers, Exec(s, AddReg(x, y), 0).registers;
      OnlyWrites(s, Exec(s, AddReg(x, y), 0), x)
      && (x != VF ==> W[VF] <= 1 && W[x] + 0x100 * W[VF] == V[x] + V[y])
      && (x == VF ==> W[VF] == (V[x] + V[y]) % 0x100)
  {
  }

  /** 8xy5 for registers other than VF: VF = 1 exactly when Vx > Vy, and then Vx - Vy is
      the exact difference; when Vx < Vy the result has borrowed 0x100; equal operands
      give 0 with VF = 0 (the comparison is strict). */
  lemma SubBorrow(s: State, x: nibble, y: nibble)
    requires Shaped(s) && x != VF && y != VF
    ensures var V: seq<int>, W: seq<int> := s.registers, Exec(s, Sub(x, y), 0).registers;
      OnlyWrites(s, Exec(s, Sub(x, y), 0), x)
      && (W[VF] == 1 <==> V[x] > V[y]) && W[VF] <= 1
      && (V[x] != V[y] ==> W[x] == V[x] - V[y] + 0x100 * (1 - W[VF]))
      && (V[x] == V[y] ==> W[x] == 0 && W[VF] == 0)
  {
  }

  /** 8xy5 as written reads its operands after storing the flag: with y = F it subtracts
      the new flag; with x = F the flag is the first operand and the result overwrites it. */
  lemma SubFlagOperand(s: State, x: nibble, y: nibble)
    requires Shaped(s)
    ensures var V: seq<int>, W: seq<int> := s.registers, Exec(s, Sub(x, y), 0).registers;
      var flag := if V[x] > V[y] then 1 else 0;
      (x != VF && y == VF ==> W[x] == (V[x] - flag) % 0x100 && W[VF] == flag)
      && (x == VF && y != VF ==> W[VF] == (flag - V[y]) % 0x100)
  {
  }

  /** 8xy7 for registers other than VF: VF = 1 exactly when Vy > Vx; the result is
      Vy - Vx, plus 0x100 when it borrowed; equal operands give 0 with VF = 0. */
  lemma SubnBorrow(s: State, x: nibble, y: nibble)
    requires Shaped(s) && x != VF && y != VF
    ensures var V: seq<int>, W: seq<int> := s.registers, Exec(s, Subn(x, y), 0).registers;
      OnlyWrites(s, Exec(s, Subn(x, y), 0), x)
      && (W[VF] == 1 <==> V[y] > V[x]) && W[VF] <= 1
      && (V[x] != V[y] ==> W[x] == V[y] - V[x] + 0x100 * (1 - W[VF]))
      && (V[x] == V[y] ==> W[x] == 0 && W[VF] == 0)
  {
  }

  /** 8xy7 as written also reads its operands after storing the flag: with y = F the flag
      is the minuend, Vx = flag - Vx; with x = F the flag is the subtrahend and the result,
      Vy - flag, overwrites it. */
  lemma SubnFlagOperand(s: State, x: nibble, y: nibble)
    requires Shaped(s)
    ensures var V: seq<int>, W: seq<int> := s.registers, Exec(s, Subn(x, y), 0).registers;
      var flag := if V[y] > V[x] then 1 else 0;
      (x != VF && y == VF ==> W[x] == (flag - V[x]) % 0x100 && W[VF] == flag)
      && (x == VF && y != VF ==> W[VF] == (V[y] - flag) % 0x100)
  {
  }

  /** 8xy6: the shifted-out low bit lands in VF, so 2 * Vx' + VF == Vx; Vy is not read.
      With x = F the flag is shifted too and ends 0. */
  lemma ShiftRight(s: State, x: nibble)
    requires Shaped(s)
    ensures var V: seq<int>, W: seq<int> := s.registers, Exec(s, Shr(x), 0).registers;
      OnlyWrites(s, Exec(s, Shr(x), 0), x)
      && (x != VF ==> W[VF] <= 1 && 2 * W[x] + W[VF] == V[x])
      && (x == VF ==> W[VF] == 0)
  {
  }

  /** 8xyE: the shifted-out high bit lands in VF, so Vx' + 0x100 * VF == 2 * Vx; Vy is
      not read. With x = F the shifted flag ends 0 or 2. */
  lemma ShiftLeft(s: State, x: nibble)
    requires Shaped(s)
    ensures var V: seq<int>, W: seq<int> := s.registers, Exec(s, Shl(x), 0).registers;
      OnlyWrites(s, Exec(s, Shl(x), 0), x)
      && (x != VF ==> W[VF] <= 1 && W[x] + 0x100 * W[VF] == 2 * V[x])
      && (x == VF ==> W[VF] == 2 * (V[x] / 0x80))
  {
  }

  /** 7xkk adds modulo 256: a sum past 0xFF loses 0x100, and VF is not a carry flag (it
      changes only when it is the target). */
  lemma AddByteNoFlag(s: State, x: nibble, kk: byte)
    requires Shaped(s)
    ensures var V: seq<int>, W: seq<int> := s.registers, Exec(s, AddByte(x, kk), 0).registers;
      OnlyWrites(s, Exec(s, AddByte(x, kk), 0), x)
      && (V[x] + kk < 0x100 ==> W[x] == V[x] + kk)
      && (V[x] + kk >= 0x100 ==> W[x] == V[x] + kk - 0x100)
      && (x != VF ==> W[VF] == V[VF])
  {
  }

  /** Fx1E changes only I: it adds Vx with no flag and no 12-bit mask, so I may leave the
      0x000-0xFFF range, and it wraps only past 0xFFFF. */
  lemma AddIndexNoFlag(s: State, x: nibble)
    requires Shaped(s)
    ensures var r := Exec(s, AddI(x), 0);
      r.(index := s.index) == s
      && (s.index + s.registers[x] < 0x1_0000 ==> r.index == s.index + s.registers[x])
      && (s.index + s.registers[x] >= 0x1_0000 ==> r.index == s.index + s.registers[x] - 0x1_0000)
  {
  }

  // ---------------------------------------------------------------- drawing

  /** Dxyn reads and writes only inside the arrays of `s`. */
  predicate DrawOk(s: State, x: nibble, y: nibble, n: nibble)
  {
    Shaped(s) && Defined(s, Drw(x, y, n))
  }

  /** Dxyn toggles the cell of every set sprite bit and no other cell (cells stay on/off);
      VF becomes 1 exactly when some set bit lands on a lit cell, and otherwise keeps its
      value; nothing outside the framebuffer and VF changes. */
  lemma DrawSemantics(s: State, x: nibble, y: nibble, n: nibble)
    requires DrawOk(s, x, y, n)
    ensures var r, ox, oy, sprite := Exec(s, Drw(x, y, n), 0), s.registers[x] % VIDEO_WIDTH,
                                     s.registers[y] % VIDEO_HEIGHT, Sprite(s, n);
      (forall row, col :: 0 <= row < n && 0 <= col < 8 && BitSet(sprite[row], col) ==>
         r.video[Cell(ox, oy, row, col)] == Toggle(s.video[Cell(ox, oy, row, col)]))
      && (forall k :: 0 <= k < VIDEO_SIZE && r.video[k] != s.video[k] ==>
            exists row, col :: 0 <= row < n && 0 <= col < 8 && BitSet(sprite[row], col) && k == Cell(ox, oy, row, col))
      && r.registers[VF] == (if exists row, col :: 0 <= row < n && 0 <= col < 8 && BitSet(sprite[row], col)
                                                   && s.video[Cell(ox, oy, row, col)] == PIXEL_ON
                             then 1 else s.registers[VF])
      && r.(video := s.video, registers := s.registers) == s
      && r.registers[..VF] == s.registers[..VF]
  {
    var r, ox, oy, sprite := Exec(s, Drw(x, y, n), 0), s.registers[x] % VIDEO_WIDTH,
                             s.registers[y] % VIDEO_HEIGHT, Sprite(s, n);
    forall row, col | 0 <= row < n && 0 <= col < 8 && BitSet(sprite[row], col)
      ensures r.video[Cell(ox, oy, row, col)] == Toggle(s.video[Cell(ox, oy, row, col)])
    {
      DrawnAtVisit(s.video, sprite, ox, oy, row, col);
    }
    forall k | 0 <= k < VIDEO_SIZE && r.video[k] != s.video[k]
      ensures exists row, col :: 0 <= row < n && 0 <= col < 8 && BitSet(sprite[row], col) && k == Cell(ox, oy, row, col)
    {
      LitVisit(sprite, ox, oy, k);
    }
    CollidesIff(s.video, sprite, ox, oy);
  }

  /** Dxy0 draws nothing and changes nothing, wherever I points. */
  lemma DrawZeroRows(s: State, x: nibble, y: nibble)
    requires Shaped(s)
    ensures DrawOk(s, x, y, 0) && Exec(s, Drw(x, y, 0), 0) == s
  {
    var ox, oy := s.registers[x] % VIDEO_WIDTH, s.registers[y] % VIDEO_HEIGHT;
    DrawnNothing(s.video, [], ox, oy);
  }

  /** Drawing the same sprite twice restores the screen; if the sprite has a set bit, VF
      ends 1. The operands must not be VF, whose value the first blit may change. */
  lemma DrawTwiceRestores(s: State, x: nibble, y: nibble, n: nibble)
    requires DrawOk(s, x, y, n) && x != VF && y != VF
    ensures var once := Exec(s, Drw(x, y, n), 0);
      DrawOk(once, x, y, n)
      && Exec(once, Drw(x, y, n), 0).video == s.video
      && (NonEmpty(Sprite(s, n)) ==> Exec(once, Drw(x, y, n), 0).registers[VF] == 1)
  {
    var once := Exec(s, Drw(x, y, n), 0);
    assert once.registers[x] == s.registers[x] && once.registers[y] == s.registers[y];
    assert Sprite(once, n) == Sprite(s, n);
    DrawTwice(s.video, Sprite(s, n), s.registers[x] % VIDEO_WIDTH, s.registers[y] % VIDEO_HEIGHT);
  }

  /** 00E0 turns every cell off and changes nothing else. */
  lemma ClearScreen(s: State)
    requires Shaped(s)
    ensures var r := Exec(s, Cls, 0);
      (forall k :: 0 <= k < VIDEO_SIZE ==> r.video[k] == 0) && r.(video := s.video) == s
  {
  }

  // ---------------------------------------------------------------- keys

  /** Fx0A: with some key down, Vx gets the lowest such key and the cycle moves on; with
      none, the cycle ends where it began, so the instruction runs again. */
  lemma WaitForKey(s: State, rnd: byte)
    requires CanStep(s) && Decode(Fetch(s)).LdVxK?
    ensures var x, r := Decode(Fetch(s)).x, Step(s, rnd);
      if exists k :: 0 <= k < 16 && s.keypad[k] != 0 then
        r.pc == s.pc + 2 && r.registers == s.registers[x := r.registers[x]]
        && r.registers[x] < 16 && s.keypad[r.registers[x]] != 0
        && (forall j :: 0 <= j < r.registers[x] ==> s.keypad[j] == 0)
      else
        r.pc == s.pc && r.registers == s.registers
  {
    var k := FirstPressed(s.keypad);
    if exists j :: 0 <= j < 16 && s.keypad[j] != 0 {
      var j :| 0 <= j < 16 && s.keypad[j] != 0;
      assert k <= j;
    }
  }

  // ---------------------------------------------------------------- memory

  /** Fx33: three decimal digits, hundreds at I, whose value is Vx; no other byte changes. */
  lemma DecimalDigits(s: State, x: nibble)
    requires Shaped(s) && s.index + 2 < MEMORY_SIZE
    ensures var m, i := Exec(s, LdB(x), 0).memory, s.index;
      m[i] < 10 && m[i + 1] < 10 && m[i + 2] < 10
      && 100 * m[i] + 10 * m[i + 1] + m[i + 2] == s.registers[x]
      && (forall a :: 0 <= a < MEMORY_SIZE && !(i <= a <= i + 2) ==> m[a] == s.memory[a])
      && Exec(s, LdB(x), 0).(memory := s.memory) == s
  {
    var v := s.registers[x];
    assert v / 10 / 10 < 10;
    assert v == 100 * (v / 10 / 10) + 10 * (v / 10 % 10) + v % 10;
  }

  /** Fx55 copies V0..Vx to I..I+x and changes no other byte, nor I; Fx65 then gives the
      registers back unchanged. */
  lemma StoreThenLoad(s: State, x: nibble)
    requires Shaped(s) && s.index + x < MEMORY_SIZE
    ensures var t := Exec(s, LdMemRegs(x), 0);
      t.memory[s.index..s.index + x + 1] == s.registers[..x + 1]
      && (forall a :: 0 <= a < MEMORY_SIZE && !(s.index <= a <= s.index + x) ==> t.memory[a] == s.memory[a])
      && t.(memory := s.memory) == s
      && Exec(t, LdRegsMem(x), 0) == t
  {
    var t := Exec(s, LdMemRegs(x), 0);
    assert t.memory[s.index..s.index + x + 1] == s.registers[..x + 1];
    assert t.memory[s.index..s.index + x + 1] + s.registers[x + 1..] == s.registers;
  }

  /** Fx65 copies I..I+x into V0..Vx and keeps I and the other registers; Fx55 then
      writes memory back unchanged. */
  lemma LoadThenStore(s: State, x: nibble)
    requires Shaped(s) && s.index + x < MEMORY_SIZE
    ensures var t := Exec(s, LdRegsMem(x), 0);
      t.registers[..x + 1] == s.memory[s.index..s.index + x + 1]
      && t.registers[x + 1..] == s.registers[x + 1..]
      && t.(registers := s.registers) == s
      && Exec(t, LdMemRegs(x), 0) == t
  {
    var t := Exec(s, LdRegsMem(x), 0);
    assert t.registers[..x + 1] == s.memory[s.index..s.index + x + 1];
    assert t.registers[x + 1..] == s.registers[x + 1..];
    StoreInPlace(t, x);
  }

  /** Fx55 over a block that already holds V0..Vx leaves memory as it is. */
  lemma StoreInPlace(t: State, x: nibble)
    requires Shaped(t) && t.index + x < MEMORY_SIZE
    requires t.registers[..x + 1] == t.memory[t.index..t.index + x + 1]
    ensures Exec(t, LdMemRegs(x), 0) == t
  {
    var u := Exec(t, LdMemRegs(x), 0);
    forall a | 0 <= a < MEMORY_SIZE
      ensures u.memory[a] == t.memory[a]
    {
      if t.index <= a <= t.index + x {
        assert t.registers[a - t.index] == t.registers[..x + 1][a - t.index];
      }
    }
  }
}
