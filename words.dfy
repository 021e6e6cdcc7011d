/** Fixed-width machine integers of the interpreter, as unbounded integers
    with the wrap-around of the C++ unsigned types written out. */
module Words {

  /** uint8_t */
  type byte = b: int | 0 <= b < 0x100

  /** uint16_t */
  type word = w: int | 0 <= w < 0x1_0000

  /** uint32_t, the type of a framebuffer cell */
  type u32 = c: int | 0 <= c < 0x1_0000_0000

  /** A 4-bit field of an opcode. */
  type nibble = n: int | 0 <= n < 0x10

  /** A 12-bit memory address, the nnn field of an opcode. */
  type addr = a: int | 0 <= a < 0x1000

  /** Assignment of an int to a uint8_t: reduction modulo 256 (Dafny's % is Euclidean,
      so a negative difference wraps the way unsigned subtraction does). */
  function Wrap8(v: int): (r: byte)
    ensures 0 <= v < 0x100 ==> r == v
    ensures (r - v) % 0x100 == 0
  {
    v % 0x100
  }

  /** Assignment of an int to a uint16_t. */
  function Wrap16(v: int): (r: word)
    ensures 0 <= v < 0x1_0000 ==> r == v
    ensures (r - v) % 0x1_0000 == 0
  {
    v % 0x1_0000
  }

  function Or8(a: byte, b: byte): byte
  {
    ((a as bv8) | (b as bv8)) as int
  }

  function And8(a: byte, b: byte): byte
  {
    ((a as bv8) & (b as bv8)) as int
  }

  function Xor8(a: byte, b: byte): byte
  {
    ((a as bv8) ^ (b as bv8)) as int
  }

  /** `b & (0x80 >> col)` is nonzero: bit `col` of `b`, counted from the most significant bit. */
  predicate BitSet(b: byte, col: nat)
    requires col < 8
  {
    (b as bv8) & (0x80 as bv8 >> col) != 0
  }

  /** The weight of sprite column `col`: 0x80 for the leftmost, 0x01 for the rightmost. */
  function Weight(col: nat): nat
    requires col < 8
  {
    [0x80, 0x40, 0x20, 0x10, 0x08, 0x04, 0x02, 0x01][col]
  }

  /** The mask test agrees with reading `b` as a binary numeral: bit `col` from the left is
      the binary digit of weight `Weight(col)`. */
  lemma BitSetDigit(b: byte, col: nat)
    requires col < 8
    ensures BitSet(b, col) <==> (b / Weight(col)) % 2 == 1
  {
  }
}
