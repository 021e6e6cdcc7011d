# CHIP-8 interpreter core in Dafny

A model of the `Chip8` class of a CHIP-8 interpreter written in C++: the machine state
(sixteen 8-bit registers V0..VF, 4 KiB of memory, the 16-bit index register I and program
counter, a sixteen-slot return stack with its pointer, the delay and sound timers, sixteen
keys, a 64x32 framebuffer of 32-bit cells and the current instruction word), the
constructor, the copy loop of `LoadRom`, one `Cycle` (fetch, `pc += 2`, dispatch through
the function tables, timer countdown) and all 34 instruction handlers plus the empty
handler. The instruction set is the one of Cowgod's Chip-8 Technical Reference v1.0,
section 3.1; the model follows the C++ code where the two differ (see below).

The project is in four parts:

- `words.dfy` (`Words`): the C++ unsigned types as integer subset types, with the
  8-bit and 16-bit wrap-around of an assignment written out (`Wrap8`, `Wrap16`) and the
  bitwise operators on bytes.
- `opcodes.dfy` (`Opcodes`), `display.dfy` (`Display`), `semantics.dfy` (`Semantics`):
  the reference semantics on values. `Decode` is the two-level dispatch of `Cycle`
  (`table` on the top nibble, then `table0`/`table8`/`tableE` on the low nibble and
  `tableF` on the low byte) and yields an `Instr`; `Exec` says what a handler does to a
  `State`; `Step` is one `Cycle`. `Display` describes the sprite blit of Dxyn cell by
  cell.
- `interpreter.dfy` (`Interpreter`): the class `Chip8` with the state in arrays and
  fields, and one method per C++ member function, each updating the object in place and
  proved to produce `Exec` (or `Step`, `Initial`, `Load`) of its old state.
- `properties.dfy` (`Properties`): what the interpreter promises, proved about the
  reference semantics.

Behaviour the model keeps as the code has it:

- 8xy5 and 8xy7 set VF = 1 only on a strict `>`; equal operands give VF = 0. Both read
  their operands after VF has been written. For 8xy5 (Vx = Vx - Vy), with y = F the new
  flag is subtracted from Vx, and with x = F the flag is the minuend and flag - Vy
  overwrites it. For 8xy7 (Vx = Vy - Vx), with y = F the new flag is the minuend, so
  Vx becomes flag - Vx, and with x = F the flag is the subtrahend and Vy - flag
  overwrites it. 8xy4 takes the sum first.
- 8xy6 and 8xyE shift Vx and ignore Vy.
- Dispatch reads the class nibble and the secondary key (the low nibble for classes 0, 8
  and E, the low byte for class F) and nothing else, so the nibbles neither the key nor
  the handler reads are ignored: zeroed memory (0x0000) and any 0nn0 clear the screen,
  any 0nnE returns, 5xyN and 9xyN ignore N, Exy1 and ExyE ignore y. There is no 0nnn
  SYS instruction.
- Dxyn reduces only the origin modulo 64 and 32; a sprite that runs past the right edge
  continues on the next line (`(y + row) * 64 + (x + col)`), not at the left edge of the
  same line. VF is only ever set to 1 by Dxyn; the reference's "otherwise it is set to 0"
  is not what the code does, and VF keeps its old value when nothing is erased.
- Bnnn and Fx1E do not reduce their results to 12 bits; Fx1E does not touch VF; Fx29
  uses the whole byte Vx; Fx55 and Fx65 leave I unchanged.
- Fx0A takes the lowest pressed key, and with no key down rewinds `pc` so that the same
  instruction runs again on the next cycle.

Where the code has undefined behaviour the model has a precondition instead
(`Semantics.Defined`, `Semantics.CanStep`): the fetch must lie inside memory; CALL needs a
free stack slot and RET a pushed one; Ex9E/ExA1 need Vx < 16; Fx33, Fx55 and Fx65 must
stay inside memory; Dxyn with n > 0 must read its sprite inside memory (Dxy0
reads nothing and is defined wherever I points), and every set sprite bit must land
inside the framebuffer.

## Model

| member | source | states |
|---|---|---|
| Words.Wrap8 | Chip8/src/Chip8.cpp:224-229 | storing into a `uint8_t` keeps a value below 256 and otherwise differs from it by a multiple of 256 |
| Words.Wrap16 | Chip8/src/Chip8.cpp:600-604 | storing into a `uint16_t` keeps a value below 0x10000 and otherwise differs from it by a multiple of 0x10000 |
| Words.BitSetDigit | Chip8/src/Chip8.cpp:439 | the mask test `b & (0x80 >> col)` is nonzero exactly when the binary digit of weight 2^(7 - col) of `b` is 1 |
| Opcodes.WordFields | Chip8/src/Chip8.cpp:104-138 | the shifts and masks cut out of a word exactly the class, X, Y and N nibbles it was built from |
| Opcodes.FieldsRebuild | Chip8/src/Chip8.cpp:160-206 | the four nibbles the masks cut out rebuild the word; kk is its low byte and nnn its low twelve bits |
| Opcodes.Decode0 | Chip8/src/Chip8.cpp:120-123 | a class-0 word reaches 00E0 exactly when its low nibble is 0, 00EE exactly when it is E, and the empty handler exactly otherwise |
| Opcodes.Decode0Key | Chip8/src/Chip8.cpp:120-123 | a filled class-0 slot runs the handler whose canonical word is of class 0 with the word's low nibble, whatever the middle nibbles hold |
| Opcodes.Decode8 | Chip8/src/Chip8.cpp:125-128 | a class-8 word reaches the empty handler exactly when its low nibble is none of 0-7 and E; otherwise the handler's Vx is the word's X, and its Vy, where it has one, the word's Y |
| Opcodes.Decode8Key | Chip8/src/Chip8.cpp:125-128 | a filled class-8 slot runs the handler whose canonical word is of class 8 with the word's low nibble; 8xy6 and 8xyE do so for every y |
| Opcodes.DecodeE | Chip8/src/Chip8.cpp:130-133 | a class-E word reaches SKP on Vx exactly when its low nibble is E, SKNP on Vx exactly when it is 1, and the empty handler exactly otherwise |
| Opcodes.DecodeEKey | Chip8/src/Chip8.cpp:130-133 | a filled class-E slot runs the handler whose canonical word is of class E with the word's low nibble, for every y |
| Opcodes.DecodeF | Chip8/src/Chip8.cpp:135-138 | a class-F word reaches the empty handler exactly when its low byte is none of the nine filled keys; otherwise the handler's Vx is the word's X |
| Opcodes.DecodeFKey | Chip8/src/Chip8.cpp:135-138 | a filled class-F slot runs the handler whose canonical word is of class F with the word's low byte |
| Opcodes.Decode | Chip8/src/Chip8.cpp:19-60 | a word reaches the empty handler exactly when its secondary key names a slot the constructor did not fill; every operand the handler reads (x, y, n, kk, nnn) is that field of the word |
| Opcodes.DecodeByKey | Chip8/src/Chip8.cpp:104-138 | a word that reaches a handler reaches the one whose canonical word has the same class and the same key (low nibble for classes 0, 8 and E, low byte for class F); with the operands `Decode` promises this fixes the instruction, so ignored nibbles do not matter |
| Opcodes.DecodeEncode | Chip8/src/Chip8.cpp:104-138 | every handler is reachable: the canonical word of each instruction is dispatched back to that instruction |
| Display.Toggle | Chip8/src/Chip8.cpp:447 | XOR with 0xFFFFFFFF turns an off cell on and an on cell off |
| Display.ToggleTwice | Chip8/src/Chip8.cpp:447 | toggling a cell twice restores it |
| Display.Drawn | Chip8/src/Chip8.cpp:435-451 | the blit keeps the framebuffer size and the on/off colours, leaves every cell no set sprite bit covers as it was and changes every covered on/off cell |
| Display.CellSpill | Chip8/src/Chip8.cpp:440 | the cell of a visit is on line oy + row at column ox + col while that column is on screen, and otherwise at column ox + col - 64 of the next line |
| Display.LitVisit | Chip8/src/Chip8.cpp:435-449 | every cell the whole blit covers is the cell of a set sprite bit |
| Display.CollidesIff | Chip8/src/Chip8.cpp:443-446 | the blit reports an erased cell exactly when some set sprite bit lands on a cell that is on |
| Display.LitStep | Chip8/src/Chip8.cpp:435-440 | each (row, col) visit covers its own cell, which no earlier visit covered |
| Display.DrawnStep | Chip8/src/Chip8.cpp:438-448 | one more visit toggles exactly its cell when its sprite bit is set, and the collision flag becomes true exactly when that cell was on |
| Display.DrawnAtVisit | Chip8/src/Chip8.cpp:435-451 | after the whole blit the cell of row `row`, column `col` is toggled exactly when that sprite bit is set |
| Display.DrawTwice | Chip8/src/Chip8.cpp:443-447 | blitting the same sprite twice restores the framebuffer, and with a set bit one of the two blits reports an erased cell |
| Semantics.WriteBlock | Chip8/src/Chip8.cpp:651-654 | a block copy sets the bytes of the block and no others |
| Semantics.Zeroed | Chip8/src/Chip8.h:11-37 | the zero-initialised members form a well-shaped state |
| Semantics.Initial | Chip8/src/Chip8.cpp:5-13 | the constructed state is well shaped |
| Semantics.Load | Chip8/src/Chip8.cpp:80-82 | loading an image keeps the state well shaped |
| Semantics.FirstPressed | Chip8/src/Chip8.cpp:503-566 | the result is the lowest key that is down, or the number of keys when none is |
| Semantics.Exec | Chip8/src/Chip8.cpp:141-670 | every handler keeps the array sizes, a stack pointer of at most 16 and on/off cells |
| Semantics.ExecIgnoresRnd | Chip8/src/Chip8.cpp:405-412 | only Cxkk reads the random byte |
| Semantics.Fetch | Chip8/src/Chip8.cpp:98 | the fetched word's high byte is the byte at `pc` and its low byte the byte at `pc + 1` |
| Semantics.Fetched | Chip8/src/Chip8.cpp:98-101 | after the fetch `pc` is exactly two further on (a fetch inside memory never wraps it) and the word's high byte is the byte at the old `pc` |
| Semantics.Tick | Chip8/src/Chip8.cpp:107-116 | the countdown never raises a timer, a timer reads zero afterwards exactly when it was at most one, and the state stays well shaped |
| Semantics.Step | Chip8/src/Chip8.cpp:94-117 | a cycle keeps the state well shaped, records the fetched word and leaves the keys alone |
| Interpreter.Chip8.constructor | Chip8/src/Chip8.cpp:5-62 | the new object holds `Initial()`: glyphs at 0x50, `pc` at 0x200, all else zero |
| Interpreter.Chip8.LoadImage | Chip8/src/Chip8.cpp:80-82 | memory from 0x200 on holds the image, the rest of the state is `Load` of the old one |
| Interpreter.Chip8.Cycle | Chip8/src/Chip8.cpp:94-117 | the new state is `Step` of the old one with the given random byte |
| Interpreter.Chip8.Execute | Chip8/src/Chip8.cpp:104 | runs the handler of the decoded instruction (through Table0/8/E/F for those classes), with the effect `Exec` describes |
| Interpreter.Chip8.Table0 | Chip8/src/Chip8.cpp:120-123 | runs the handler of the decoded class-0 instruction, as `Exec` describes it |
| Interpreter.Chip8.Table8 | Chip8/src/Chip8.cpp:125-128 | runs the handler of the decoded class-8 instruction, as `Exec` describes it |
| Interpreter.Chip8.TableE | Chip8/src/Chip8.cpp:130-133 | runs the handler of the decoded class-E instruction, as `Exec` describes it |
| Interpreter.Chip8.TableF | Chip8/src/Chip8.cpp:135-138 | runs the handler of the decoded class-F instruction, as `Exec` describes it |
| Interpreter.Chip8.OpNull | Chip8/src/Chip8.cpp:141-143 | the empty handler changes nothing |
| Interpreter.Chip8.Op00E0 | Chip8/src/Chip8.cpp:146-149 | every cell is zero afterwards, the rest unchanged |
| Interpreter.Chip8.Op00EE | Chip8/src/Chip8.cpp:152-156 | pops the stack into `pc` |
| Interpreter.Chip8.Op1nnn | Chip8/src/Chip8.cpp:160-165 | `pc` becomes nnn |
| Interpreter.Chip8.Op2nnn | Chip8/src/Chip8.cpp:169-174 | pushes `pc` and jumps to nnn |
| Interpreter.Chip8.Op3xkk | Chip8/src/Chip8.cpp:178-184 | skips when Vx equals kk |
| Interpreter.Chip8.Op4xkk | Chip8/src/Chip8.cpp:188-194 | skips when Vx differs from kk |
| Interpreter.Chip8.Op5xy0 | Chip8/src/Chip8.cpp:199-205 | skips when Vx equals Vy |
| Interpreter.Chip8.Op6xkk | Chip8/src/Chip8.cpp:212-217 | Vx becomes kk |
| Interpreter.Chip8.Op7xkk | Chip8/src/Chip8.cpp:224-229 | Vx becomes Vx + kk modulo 256 |
| Interpreter.Chip8.Op8xy0 | Chip8/src/Chip8.cpp:236-241 | Vx becomes Vy |
| Interpreter.Chip8.Op8xy1 | Chip8/src/Chip8.cpp:248-253 | Vx becomes Vx OR Vy |
| Interpreter.Chip8.Op8xy2 | Chip8/src/Chip8.cpp:259-264 | Vx becomes Vx AND Vy |
| Interpreter.Chip8.Op8xy3 | Chip8/src/Chip8.cpp:270-275 | Vx becomes Vx XOR Vy |
| Interpreter.Chip8.Op8xy4 | Chip8/src/Chip8.cpp:283-296 | sum with carry into VF |
| Interpreter.Chip8.Op8xy5 | Chip8/src/Chip8.cpp:303-315 | difference with VF = (Vx > Vy) |
| Interpreter.Chip8.Op8xy6 | Chip8/src/Chip8.cpp:323-329 | shift right with the low bit into VF |
| Interpreter.Chip8.Op8xy7 | Chip8/src/Chip8.cpp:336-348 | reverse difference with VF = (Vy > Vx) |
| Interpreter.Chip8.Op8xyE | Chip8/src/Chip8.cpp:355-361 | shift left with the high bit into VF |
| Interpreter.Chip8.Op9xy0 | Chip8/src/Chip8.cpp:368-375 | skips when Vx differs from Vy |
| Interpreter.Chip8.OpAnnn | Chip8/src/Chip8.cpp:382-385 | I becomes nnn |
| Interpreter.Chip8.OpBnnn | Chip8/src/Chip8.cpp:392-396 | `pc` becomes nnn + V0, unreduced |
| Interpreter.Chip8.OpCxkk | Chip8/src/Chip8.cpp:405-412 | Vx becomes the random byte AND kk |
| Interpreter.Chip8.OpDxyn | Chip8/src/Chip8.cpp:426-452 | the framebuffer becomes the blit of the n-byte sprite at I and VF is set exactly when a lit cell was erased |
| Interpreter.Chip8.BlitRow | Chip8/src/Chip8.cpp:438-449 | the eight columns of one sprite row extend the blit and the collision flag by one row |
| Interpreter.Chip8.OpEx9E | Chip8/src/Chip8.cpp:459-467 | skips when key Vx is down |
| Interpreter.Chip8.OpExA1 | Chip8/src/Chip8.cpp:474-481 | skips when key Vx is up |
| Interpreter.Chip8.OpFx07 | Chip8/src/Chip8.cpp:488-492 | Vx becomes the delay timer |
| Interpreter.Chip8.OpFx0A | Chip8/src/Chip8.cpp:499-571 | Vx becomes the lowest pressed key, or `pc` is rewound by 2 |
| Interpreter.Chip8.OpFx15 | Chip8/src/Chip8.cpp:578-582 | the delay timer becomes Vx |
| Interpreter.Chip8.OpFx18 | Chip8/src/Chip8.cpp:589-593 | the sound timer becomes Vx |
| Interpreter.Chip8.OpFx1E | Chip8/src/Chip8.cpp:600-604 | I becomes I + Vx modulo 0x10000 |
| Interpreter.Chip8.OpFx29 | Chip8/src/Chip8.cpp:612-617 | I becomes 0x50 + 5 * Vx |
| Interpreter.Chip8.OpFx33 | Chip8/src/Chip8.cpp:625-640 | the decimal digits of Vx at I, I+1, I+2 |
| Interpreter.Chip8.OpFx55 | Chip8/src/Chip8.cpp:647-655 | V0..Vx copied to memory from I on, I unchanged |
| Interpreter.Chip8.OpFx65 | Chip8/src/Chip8.cpp:662-670 | memory from I on copied to V0..Vx, I unchanged |
| Properties.InitialState | Chip8/src/Chip8.cpp:5-13 | after construction `pc` is 0x200, the glyphs occupy 0x50..0x9F, every other byte, register, stack slot, key, cell, timer and pointer is zero |
| Properties.FontLayout | Chip8/src/Chip8.h:39-63 | the glyph table has 80 bytes, five per digit, and ends below 0x200 |
| Properties.LoadPlacesImage | Chip8/src/Chip8.cpp:80-82 | the image is at 0x200, memory below 0x200 (so the glyphs) and after the image and every other field are unchanged |
| Properties.GlyphAddress | Chip8/src/Chip8.cpp:612-617 | for a digit Vx < 16, I addresses the five glyph rows of that digit, below 0x200 |
| Properties.FetchFields | Chip8/src/Chip8.cpp:98-104 | the class and X nibbles of the fetched word are the nibbles of the byte at `pc`, its kk byte is the byte at `pc + 1` |
| Properties.ExecFrame | Chip8/src/Chip8.cpp:141-670 | handlers never change the keys; only Fx15/Fx18 set a timer, only CALL the stack, only Fx33/Fx55 memory, only 00E0/Dxyn the screen |
| Properties.StepTimers | Chip8/src/Chip8.cpp:94-117 | each running timer drops by one per cycle after the handler, so Fx15 with Vx = k leaves k - 1 |
| Properties.StepSkip | Chip8/src/Chip8.cpp:178-481 | for 3xkk, 4xkk, 5xy0, 9xy0, Ex9E, ExA1, `pc` advances by 4 exactly when the condition holds and by 2 otherwise; nothing else but the fetched word and the timers changes |
| Properties.CallReturn | Chip8/src/Chip8.cpp:152-174 | a RET at the depth the CALL left returns to the instruction after the CALL with the stack pointer and the callers' slots restored |
| Properties.AddCarry | Chip8/src/Chip8.cpp:283-296 | Vx + 256 * VF is the 9-bit sum; with x = F the flag holds the low byte |
| Properties.SubBorrow | Chip8/src/Chip8.cpp:303-315 | VF = 1 exactly when Vx > Vy; the result is the difference, plus 256 when it borrowed; equal operands give 0 with VF = 0 |
| Properties.SubFlagOperand | Chip8/src/Chip8.cpp:303-315 | with y = F the new flag is subtracted; with x = F the flag is the first operand and is overwritten |
| Properties.SubnBorrow | Chip8/src/Chip8.cpp:336-348 | VF = 1 exactly when Vy > Vx; the result is Vy - Vx, plus 256 when it borrowed; equal operands give 0 with VF = 0 |
| Properties.SubnFlagOperand | Chip8/src/Chip8.cpp:336-348 | with y = F, Vx becomes the new flag minus Vx modulo 256 and VF keeps the flag; with x = F, VF ends as Vy minus the flag modulo 256 |
| Properties.ShiftRight | Chip8/src/Chip8.cpp:323-329 | 2 * Vx' + VF equals the old Vx; with x = F the flag ends 0 |
| Properties.ShiftLeft | Chip8/src/Chip8.cpp:355-361 | Vx' + 256 * VF equals twice the old Vx; with x = F the flag ends 0 or 2 |
| Properties.AddByteNoFlag | Chip8/src/Chip8.cpp:224-229 | 7xkk writes only Vx: the exact sum when it is below 256, the sum less 256 otherwise; VF is no carry flag and keeps its value unless it is the target |
| Properties.AddIndexNoFlag | Chip8/src/Chip8.cpp:600-604 | Fx1E writes only I, leaving every register, VF included, alone: the exact sum when it is below 0x10000, even past 0xFFF, and the sum less 0x10000 otherwise |
| Properties.DrawSemantics | Chip8/src/Chip8.cpp:426-452 | the cell of every set sprite bit is toggled and no other cell changes; VF is 1 exactly when a set bit lands on a lit cell and otherwise keeps its value; V0..VE and all other fields are unchanged |
| Properties.DrawZeroRows | Chip8/src/Chip8.cpp:426-436 | a zero-height Dxy0 is defined wherever I points and leaves the whole state unchanged |
| Properties.DrawTwiceRestores | Chip8/src/Chip8.cpp:426-452 | drawing the same sprite twice restores the screen, and with a set bit VF ends 1 |
| Properties.ClearScreen | Chip8/src/Chip8.cpp:146-149 | every cell is off and nothing else changes |
| Properties.WaitForKey | Chip8/src/Chip8.cpp:499-571 | with a key down Vx gets the lowest pressed key and `pc` moves on; with none the cycle leaves `pc` and the registers as they were |
| Properties.DecimalDigits | Chip8/src/Chip8.cpp:625-640 | three digits below 10 with 100 * hundreds + 10 * tens + ones = Vx, and no other byte changes |
| Properties.StoreThenLoad | Chip8/src/Chip8.cpp:647-670 | Fx55 copies V0..Vx to I.. and nothing else; Fx65 then leaves the state as it is |
| Properties.LoadThenStore | Chip8/src/Chip8.cpp:647-670 | Fx65 copies I.. to V0..Vx and nothing else; Fx55 then leaves the state as it is |
| Properties.StoreInPlace | Chip8/src/Chip8.cpp:647-655 | Fx55 over a block that already holds V0..Vx changes nothing |

## Left out

- File handling of `LoadRom` (opening, sizing and reading the file, the message when it
  cannot be opened): the image arrives as a byte sequence of at most 0xE00 bytes, which
  is what fits between 0x200 and the end of memory; a larger file overruns the array in
  the code.
- The random engine and its distribution: the byte it draws for Cxkk is a parameter of
  `Cycle`.
- The member-function-pointer tables themselves: dispatch is modelled by `Decode`. In the
  code only the first slot of each secondary table starts as the empty handler; the
  other slots no constructor line fills are null member pointers. `table0`, `table8` and
  `tableE` have 0xE + 1 slots, so a low nibble of F indexes past their end, and a class-F
  key above 0x65 lies outside `tableF`. Calling through either is undefined behaviour; the model
  sends every unfilled key to the empty handler instead.
- The host side: `Main.cpp`, `GUI.h`, `Platform.h`, the frame loop, its timing, the
  input events that write `keypad` between cycles, and the packing of the framebuffer
  into a texture.
- Concurrency: there is none in the core.
