/** The CHIP-8 machine as a value, and what one handler and one `Cycle` do to it.
    These functions are the reference the interpreter class is proved against. */
module Semantics {
  import opened Words
  import opened Opcodes
  import opened Display

  const MEMORY_SIZE := 4096
  const START_ADDRESS := 0x200
  const FONTSET_START_ADDRESS := 0x50
  const FONTSET_SIZE := 80
  /** Index of the flag register VF. */
  const VF := 0xF

  /** The hexadecimal digit glyphs 0..F, five rows of one byte each. */
  const FONTSET: seq<byte> := [
    0xF0, 0x90, 0x90, 0x90, 0xF0, // 0
    0x20, 0x60, 0x20, 0x20, 0x70, // 1
    0xF0, 0x10, 0xF0, 0x80, 0xF0, // 2
    0xF0, 0x10, 0xF0, 0x10, 0xF0, // 3
    0x90, 0x90, 0xF0, 0x10, 0x10, // 4
    0xF0, 0x80, 0xF0, 0x10, 0xF0, // 5
    0xF0, 0x80, 0xF0, 0x90, 0xF0, // 6
    0xF0, 0x10, 0x20, 0x40, 0x40, // 7
    0xF0, 0x90, 0xF0, 0x90, 0xF0, // 8
    0xF0, 0x90, 0xF0, 0x10, 0xF0, // 9
    0xF0, 0x90, 0xF0, 0x90, 0x90, // A
    0xE0, 0x90, 0xE0, 0x90, 0xE0, // B
    0xF0, 0x80, 0x80, 0x80, 0xF0, // C
    0xE0, 0x90, 0x90, 0x90, 0xE0, // D
    0xF0, 0x80, 0xF0, 0x80, 0xF0, // E
    0xF0, 0x80, 0xF0, 0x80, 0x80  // F
  ]

  /** Every field of the interpreter object except the dispatch tables and the random
      engine; `opcode` is the word fetched by the current cycle. */
  datatype State = State(
    registers: seq<byte>,
    memory: seq<byte>,
    index: word,
    pc: word,
    stack: seq<word>,
    sp: byte,
    delayTimer: byte,
    soundTimer: byte,
    keypad: seq<byte>,
    video: seq<u32>,
    opcode: word)

  /** The array sizes of the object, the framebuffer's two colours, and a stack pointer
      that is at most one past the last slot. */
  predicate Shaped(s: State)
  {
    |s.registers| == 16 && |s.memory| == MEMORY_SIZE && |s.stack| == 16 && s.sp <= 16
    && |s.keypad| == 16 && |s.video| == VIDEO_SIZE && AllBinary(s.video)
  }

  /** The object as its `{}` initialisers leave it, before the constructor body runs. */
  function Zeroed(): (s: State)
    ensures Shaped(s)
  {
    State(seq(16, _ => 0), seq(MEMORY_SIZE, _ => 0), 0, 0, seq(16, _ => 0), 0, 0, 0,
          seq(16, _ => 0), seq(VIDEO_SIZE, _ => 0), 0)
  }

  /** `memory` with `bytes` written from address `at` on. */
  function WriteBlock(memory: seq<byte>, at: nat, bytes: seq<byte>): (r: seq<byte>)
    requires at + |bytes| <= |memory|
    ensures |r| == |memory|
    ensures forall a :: 0 <= a < |memory| ==>
      r[a] == if at <= a < at + |bytes| then bytes[a - at] else memory[a]
  {
    memory[..at] + bytes + memory[at + |bytes|..]
  }

  /** The constructor: glyphs copied to 0x50, `pc` at 0x200. */
  function Initial(): (s: State)
    ensures Shaped(s)
  {
    var z := Zeroed();
    z.(pc := START_ADDRESS, memory := WriteBlock(z.memory, FONTSET_START_ADDRESS, FONTSET))
  }

  /** The copy loop of `LoadRom`: the image's bytes from 0x200 on. */
  function Load(s: State, image: seq<byte>): (r: State)
    requires Shaped(s) && |image| <= MEMORY_SIZE - START_ADDRESS
    ensures Shaped(r)
  {
    s.(memory := WriteBlock(s.memory, START_ADDRESS, image))
  }

  /** `pc += 2` */
  function Skip(s: State): State
  {
    s.(pc := Wrap16(s.pc + 2))
  }

  /** `registers[x] = v` */
  function SetV(s: State, x: nibble, v: byte): (r: State)
    requires |s.registers| == 16
    ensures |r.registers| == 16
  {
    s.(registers := s.registers[x := v])
  }

  /** The lowest key whose entry is nonzero, or `|keypad|` when none is. */
  function FirstPressed(keypad: seq<byte>): (k: nat)
    ensures k <= |keypad|
    ensures k < |keypad| ==> keypad[k] != 0
    ensures forall j :: 0 <= j < k ==> keypad[j] == 0
  {
    if keypad == [] then 0
    else if keypad[0] != 0 then 0
    else 1 + FirstPressed(keypad[1..])
  }

  /** The sprite Dxyn draws: `n` bytes from `index` on; none when `n` is 0, whatever `index`. */
  function Sprite(s: State, n: nibble): (sprite: seq<byte>)
    requires Shaped(s) && (n == 0 || s.index + n <= MEMORY_SIZE)
    ensures |sprite| == n
    ensures forall row :: 0 <= row < n ==> sprite[row] == s.memory[s.index + row]
  {
    if n == 0 then [] else s.memory[s.index..s.index + n]
  }

  /** The handler's behaviour is defined by the source (no out-of-range array access). */
  predicate Defined(s: State, i: Instr)
    requires Shaped(s)
  {
    match i
    case Ret => 1 <= s.sp
    case Call(_) => s.sp < 16
    case Skp(x) => s.registers[x] < 16
    case Sknp(x) => s.registers[x] < 16
    case Drw(x, y, n) =>
      (n == 0 || s.index + n <= MEMORY_SIZE)
      && Fits(Sprite(s, n), s.registers[x] % VIDEO_WIDTH, s.registers[y] % VIDEO_HEIGHT)
    case LdB(_) => s.index + 2 < MEMORY_SIZE
    case LdMemRegs(x) => s.index + x < MEMORY_SIZE
    case LdRegsMem(x) => s.index + x < MEMORY_SIZE
    case _ => true
  }

  /** One handler on a state whose `pc` already points past the instruction. `rnd` is the
      byte the random engine produces for Cxkk. */
  function Exec(s: State, i: Instr, rnd: byte): (r: State)
    requires Shaped(s) && Defined(s, i)
    ensures Shaped(r)
  {
    var V := s.registers;
    match i
    case Null => s
    case Cls => s.(video := seq(VIDEO_SIZE, _ => 0))
    case Ret => s.(sp := s.sp - 1, pc := s.stack[s.sp - 1])
    case Jp(nnn) => s.(pc := nnn)
    case Call(nnn) => s.(stack := s.stack[s.sp := s.pc], sp := s.sp + 1, pc := nnn)
    case SeByte(x, kk) => if V[x] == kk then Skip(s) else s
    case SneByte(x, kk) => if V[x] != kk then Skip(s) else s
    case SeReg(x, y) => if V[x] == V[y] then Skip(s) else s
    case LdByte(x, kk) => SetV(s, x, kk)
    case AddByte(x, kk) => SetV(s, x, Wrap8(V[x] as int + kk))
    case LdReg(x, y) => SetV(s, x, V[y])
    case Or(x, y) => SetV(s, x, Or8(V[x], V[y]))
    case And(x, y) => SetV(s, x, And8(V[x], V[y]))
    case Xor(x, y) => SetV(s, x, Xor8(V[x], V[y]))
    case AddReg(x, y) =>
      // the sum is taken before VF is written
      var sum := V[x] as int + V[y];
      SetV(SetV(s, VF, if sum > 255 then 1 else 0), x, sum % 0x100)
    case Sub(x, y) =>
      // the difference is taken after VF is written
      var t := SetV(s, VF, if V[x] > V[y] then 1 else 0);
      SetV(t, x, Wrap8(t.registers[x] as int - t.registers[y]))
    case Shr(x) =>
      // `& 0x1`, then `>>= 1`
      var t := SetV(s, VF, V[x] % 2);
      SetV(t, x, t.registers[x] / 2)
    case Subn(x, y) =>
      var t := SetV(s, VF, if V[y] > V[x] then 1 else 0);
      SetV(t, x, Wrap8(t.registers[y] as int - t.registers[x]))
    case Shl(x) =>
      // `(& 0x80) >> 7`, then `<<= 1`
      var t := SetV(s, VF, V[x] / 0x80);
      SetV(t, x, Wrap8(t.registers[x] as int * 2))
    case SneReg(x, y) => if V[x] != V[y] then Skip(s) else s
    case LdI(nnn) => s.(index := nnn)
    case JpV0(nnn) => s.(pc := nnn + V[0])
    case Rnd(x, kk) => SetV(s, x, And8(rnd, kk))
    case Drw(x, y, n) =>
      var ox, oy, sprite := V[x] % VIDEO_WIDTH, V[y] % VIDEO_HEIGHT, Sprite(s, n);
      var limit := Visit(n, 0);
      s.(video := Drawn(s.video, sprite, ox, oy, limit),
         registers := V[VF := if Collides(s.video, sprite, ox, oy, limit) then 1 else V[VF]])
    case Skp(x) => if s.keypad[V[x]] != 0 then Skip(s) else s
    case Sknp(x) => if s.keypad[V[x]] == 0 then Skip(s) else s
    case LdVxDt(x) => SetV(s, x, s.delayTimer)
    case LdVxK(x) =>
      var key := FirstPressed(s.keypad);
      if key < 16 then SetV(s, x, key) else s.(pc := Wrap16(s.pc - 2))
    case LdDtVx(x) => s.(delayTimer := V[x])
    case LdStVx(x) => s.(soundTimer := V[x])
    case AddI(x) => s.(index := Wrap16(s.index + V[x]))
    case LdF(x) => s.(index := FONTSET_START_ADDRESS + 5 * V[x] as int)
    case LdB(x) =>
      var value := V[x];
      s.(memory := s.memory[s.index + 2 := value % 10]
                           [s.index + 1 := value / 10 % 10]
                           [s.index := value / 10 / 10 % 10])
    case LdMemRegs(x) => s.(memory := WriteBlock(s.memory, s.index, V[..x + 1]))
    case LdRegsMem(x) => s.(registers := s.memory[s.index..s.index + x + 1] + V[x + 1..])
  }

  /** Only Cxkk reads the random byte. */
  lemma ExecIgnoresRnd(s: State, i: Instr, rnd: byte)
    requires Shaped(s) && Defined(s, i) && !i.Rnd?
    ensures Exec(s, i, rnd) == Exec(s, i, 0)
  {
  }

  /** The word at `pc`, high byte first. */
  function Fetch(s: State): (w: word)
    requires Shaped(s) && s.pc + 1 < MEMORY_SIZE
    ensures w / 0x100 == s.memory[s.pc] && w % 0x100 == s.memory[s.pc + 1]
  {
    s.memory[s.pc] as int * 0x100 + s.memory[s.pc + 1]
  }

  /** The end of `Cycle`: each timer that is nonzero drops by one. A timer never rises,
      and it reads zero afterwards exactly when it was at most one. */
  function Tick(s: State): (r: State)
    ensures Shaped(s) ==> Shaped(r)
    ensures r.delayTimer <= s.delayTimer && r.soundTimer <= s.soundTimer
    ensures (r.delayTimer == 0 <==> s.delayTimer <= 1) && (r.soundTimer == 0 <==> s.soundTimer <= 1)
  {
    s.(delayTimer := if s.delayTimer > 0 then s.delayTimer - 1 else 0,
       soundTimer := if s.soundTimer > 0 then s.soundTimer - 1 else 0)
  }

  /** The state after the fetch and `pc += 2`, before the handler runs. */
  function Fetched(s: State): (r: State)
    requires Shaped(s) && s.pc + 1 < MEMORY_SIZE
    ensures Shaped(r)
    ensures r.pc == s.pc + 2 && r.opcode / 0x100 == s.memory[s.pc]
  {
    s.(opcode := Fetch(s), pc := Wrap16(s.pc + 2))
  }

  /** `Cycle` has defined behaviour: the fetch is in range and so is the handler. */
  predicate CanStep(s: State)
  {
    Shaped(s) && s.pc + 1 < MEMORY_SIZE && Defined(Fetched(s), Decode(Fetch(s)))
  }

  /** One `Cycle`: fetch, `pc += 2`, dispatch, timers. */
  function Step(s: State, rnd: byte): (r: State)
    requires CanStep(s)
    ensures Shaped(r)
    ensures r.opcode == Fetch(s) && r.keypad == s.keypad
  {
    Tick(Exec(Fetched(s), Decode(Fetch(s)), rnd))
  }
}
