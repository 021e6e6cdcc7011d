/** The 64x32 framebuffer and the sprite blit of Dxyn (section 2.4 of Cowgod's Chip-8
    Technical Reference v1.0, as this interpreter implements it). A cell is a 32-bit
    colour that is either 0 (off) or 0xFFFFFFFF (on).

    The blit visits sprite row `row` (a byte, most significant bit first) and column
    `col` in the order row-major, and touches cell `(oy + row) * 64 + (ox + col)`,
    where only the origin `(ox, oy)` has been reduced modulo the screen size: a sprite
    that runs off the right edge continues on the next line, not on the same line.
    Distinct (row, col) visits touch distinct cells, so the blit is described here
    cell by cell: `Lit` says whether a cell is covered by a set sprite bit among the
    first `limit` visits (`limit = 8 * height` for the whole sprite). */
module Display {
  import opened Words

  const VIDEO_WIDTH := 64
  const VIDEO_HEIGHT := 32
  const VIDEO_SIZE := VIDEO_WIDTH * VIDEO_HEIGHT
  const PIXEL_ON: u32 := 0xFFFF_FFFF

  predicate Binary(c: u32)
  {
    c == 0 || c == PIXEL_ON
  }

  predicate AllBinary(video: seq<u32>)
  {
    forall k :: 0 <= k < |video| ==> Binary(video[k])
  }

  /** `c ^ 0xFFFFFFFF` on a 32-bit cell. */
  function Toggle(c: u32): (r: u32)
    ensures Binary(c) ==> Binary(r) && r != c
  {
    0xFFFF_FFFF - c
  }

  lemma ToggleTwice(c: u32)
    ensures Toggle(Toggle(c)) == c
  {
  }

  /** The framebuffer index the blit touches for sprite row `row`, column `col`. */
  function Cell(ox: nat, oy: nat, row: nat, col: nat): nat
  {
    (oy + row) * VIDEO_WIDTH + (ox + col)
  }

  /** Visit number of sprite row `row`, column `col` in the blit's row-major order. */
  function Visit(row: nat, col: nat): nat
  {
    row * 8 + col
  }

  /** Cell `k` is toggled by one of the first `limit` visits of the blit of `sprite` at
      origin `(ox, oy)`: its offset from the origin is `row * 64 + col` for a visit
      before `limit` whose sprite bit is set. */
  predicate Lit(sprite: seq<byte>, ox: nat, oy: nat, limit: nat, k: int)
  {
    var d := k - Cell(ox, oy, 0, 0);
    0 <= d && d / VIDEO_WIDTH < |sprite| && d % VIDEO_WIDTH < 8
    && Visit(d / VIDEO_WIDTH, d % VIDEO_WIDTH) < limit
    && BitSet(sprite[d / VIDEO_WIDTH], d % VIDEO_WIDTH)
  }

  /** Every set sprite bit lands inside the framebuffer array. */
  predicate Fits(sprite: seq<byte>, ox: nat, oy: nat)
  {
    forall row, col :: 0 <= row < |sprite| && 0 <= col < 8 && BitSet(sprite[row], col) ==>
      Cell(ox, oy, row, col) < VIDEO_SIZE
  }

  /** The framebuffer after the first `limit` visits of the blit. */
  function Drawn(video: seq<u32>, sprite: seq<byte>, ox: nat, oy: nat, limit: nat): (r: seq<u32>)
    ensures |r| == |video|
    ensures AllBinary(video) ==> AllBinary(r)
    ensures forall k :: 0 <= k < |video| && !Lit(sprite, ox, oy, limit, k) ==> r[k] == video[k]
    ensures forall k :: 0 <= k < |video| && Lit(sprite, ox, oy, limit, k) ==> r[k] != video[k] || !Binary(video[k])
  {
    seq(|video|, k requires 0 <= k < |video| =>
      if Lit(sprite, ox, oy, limit, k) then Toggle(video[k]) else video[k])
  }

  /** Some visit among the first `limit` erases a lit cell. */
  predicate Collides(video: seq<u32>, sprite: seq<byte>, ox: nat, oy: nat, limit: nat)
  {
    exists k :: 0 <= k < |video| && Lit(sprite, ox, oy, limit, k) && video[k] == PIXEL_ON
  }

  /** Where the blit lands on screen: on line `oy + row` at column `ox + col` while that
      column is on screen, and otherwise wrapped to the start of the next line. */
  lemma CellSpill(ox: nat, oy: nat, row: nat, col: nat)
    requires ox < VIDEO_WIDTH && col < 8
    ensures ox + col < VIDEO_WIDTH ==>
      Cell(ox, oy, row, col) / VIDEO_WIDTH == oy + row && Cell(ox, oy, row, col) % VIDEO_WIDTH == ox + col
    ensures VIDEO_WIDTH <= ox + col ==>
      Cell(ox, oy, row, col) / VIDEO_WIDTH == oy + row + 1
      && Cell(ox, oy, row, col) % VIDEO_WIDTH == ox + col - VIDEO_WIDTH
  {
    if ox + col < VIDEO_WIDTH {
      SplitOffset(oy + row, ox + col);
    } else {
      assert Cell(ox, oy, row, col) == (oy + row + 1) * VIDEO_WIDTH + (ox + col - VIDEO_WIDTH);
      SplitOffset(oy + row + 1, ox + col - VIDEO_WIDTH);
    }
  }

  /** Offset `row * 64 + col` splits back into `row` and `col`. */
  lemma SplitOffset(row: nat, col: nat)
    requires col < VIDEO_WIDTH
    ensures (row * VIDEO_WIDTH + col) / VIDEO_WIDTH == row
    ensures (row * VIDEO_WIDTH + col) % VIDEO_WIDTH == col
  {
  }

  /** One more visit of the blit lights exactly the cell of that visit, if its bit is set,
      and that cell was not lit by an earlier visit. */
  lemma LitStep(sprite: seq<byte>, ox: nat, oy: nat, row: nat, col: nat, k: int)
    requires row < |sprite| && col < 8
    ensures !Lit(sprite, ox, oy, Visit(row, col), Cell(ox, oy, row, col))
    ensures Lit(sprite, ox, oy, Visit(row, col) + 1, k) <==>
      Lit(sprite, ox, oy, Visit(row, col), k) || (k == Cell(ox, oy, row, col) && BitSet(sprite[row], col))
  {
    SplitOffset(row, col);
    assert Cell(ox, oy, row, col) - Cell(ox, oy, 0, 0) == row * VIDEO_WIDTH + col;
    var d := k - Cell(ox, oy, 0, 0);
    if 0 <= d && d % VIDEO_WIDTH < 8 && Visit(d / VIDEO_WIDTH, d % VIDEO_WIDTH) == Visit(row, col) {
      var r, c := d / VIDEO_WIDTH, d % VIDEO_WIDTH;
      assert r * 8 + c == row * 8 + col;
      assert r == row && c == col;
      assert d == r * VIDEO_WIDTH + c;
    }
  }

  /** The blit of one visit, in terms of the framebuffer so far: the visit's cell is
      toggled if its sprite bit is set, and it still holds its value from before the blit. */
  lemma DrawnStep(video: seq<u32>, sprite: seq<byte>, ox: nat, oy: nat, row: nat, col: nat)
    requires row < |sprite| && col < 8
    requires BitSet(sprite[row], col) ==> Cell(ox, oy, row, col) < |video|
    ensures var p, c := Visit(row, col), Cell(ox, oy, row, col);
      Drawn(video, sprite, ox, oy, p + 1) ==
        if BitSet(sprite[row], col) then Drawn(video, sprite, ox, oy, p)[c := Toggle(Drawn(video, sprite, ox, oy, p)[c])]
        else Drawn(video, sprite, ox, oy, p)
    ensures var p, c := Visit(row, col), Cell(ox, oy, row, col);
      BitSet(sprite[row], col) ==> Drawn(video, sprite, ox, oy, p)[c] == video[c]
    ensures var p, c := Visit(row, col), Cell(ox, oy, row, col);
      Collides(video, sprite, ox, oy, p + 1) <==>
        Collides(video, sprite, ox, oy, p) || (BitSet(sprite[row], col) && video[c] == PIXEL_ON)
  {
    var p, c := Visit(row, col), Cell(ox, oy, row, col);
    forall k | 0 <= k < |video|
      ensures Lit(sprite, ox, oy, p + 1, k) <==> Lit(sprite, ox, oy, p, k) || (k == c && BitSet(sprite[row], col))
    {
      LitStep(sprite, ox, oy, row, col, k);
    }
    LitStep(sprite, ox, oy, row, col, c);
    if Collides(video, sprite, ox, oy, p + 1) {
      var k :| 0 <= k < |video| && Lit(sprite, ox, oy, p + 1, k) && video[k] == PIXEL_ON;
      assert Lit(sprite, ox, oy, p, k) || k == c;
    }
    if BitSet(sprite[row], col) && video[c] == PIXEL_ON {
      assert Lit(sprite, ox, oy, p + 1, c);
    }
  }

  /** Before any visit, nothing is lit. */
  lemma DrawnNothing(video: seq<u32>, sprite: seq<byte>, ox: nat, oy: nat)
    ensures Drawn(video, sprite, ox, oy, 0) == video
    ensures !Collides(video, sprite, ox, oy, 0)
  {
  }

  /** Some set sprite bit exists. */
  predicate NonEmpty(sprite: seq<byte>)
  {
    exists row, col :: 0 <= row < |sprite| && 0 <= col < 8 && BitSet(sprite[row], col)
  }

  /** The whole blit, by visit: the cell of row `row`, column `col` is toggled exactly when
      that sprite bit is set. */
  lemma DrawnAtVisit(video: seq<u32>, sprite: seq<byte>, ox: nat, oy: nat, row: nat, col: nat)
    requires row < |sprite| && col < 8
    requires Cell(ox, oy, row, col) < |video|
    ensures Lit(sprite, ox, oy, Visit(|sprite|, 0), Cell(ox, oy, row, col)) <==> BitSet(sprite[row], col)
    ensures var c := Cell(ox, oy, row, col);
      Drawn(video, sprite, ox, oy, Visit(|sprite|, 0))[c] ==
        if BitSet(sprite[row], col) then Toggle(video[c]) else video[c]
  {
    SplitOffset(row, col);
    assert Cell(ox, oy, row, col) - Cell(ox, oy, 0, 0) == row * VIDEO_WIDTH + col;
  }

  /** Drawing the same sprite twice at the same origin restores the framebuffer; if the
      sprite has a set bit, one of the two blits erases a lit cell. */
  lemma DrawTwice(video: seq<u32>, sprite: seq<byte>, ox: nat, oy: nat)
    ensures var limit := Visit(|sprite|, 0);
      Drawn(Drawn(video, sprite, ox, oy, limit), sprite, ox, oy, limit) == video
    ensures var limit := Visit(|sprite|, 0);
      AllBinary(video) && |video| == VIDEO_SIZE && Fits(sprite, ox, oy) && NonEmpty(sprite) ==>
        Collides(video, sprite, ox, oy, limit) || Collides(Drawn(video, sprite, ox, oy, limit), sprite, ox, oy, limit)
  {
    var limit := Visit(|sprite|, 0);
    var once := Drawn(video, sprite, ox, oy, limit);
    var twice := Drawn(once, sprite, ox, oy, limit);
    forall k | 0 <= k < |video|
      ensures twice[k] == video[k]
    {
      ToggleTwice(video[k]);
    }
    if AllBinary(video) && |video| == VIDEO_SIZE && Fits(sprite, ox, oy) && NonEmpty(sprite) {
      var row, col :| 0 <= row < |sprite| && 0 <= col < 8 && BitSet(sprite[row], col);
      var c := Cell(ox, oy, row, col);
      DrawnAtVisit(video, sprite, ox, oy, row, col);
      if video[c] != PIXEL_ON {
        assert once[c] == PIXEL_ON;
      }
    }
  }

  /** A cell lit by the whole blit is the cell of a set sprite bit. */
  lemma LitVisit(sprite: seq<byte>, ox: nat, oy: nat, k: int)
    requires Lit(sprite, ox, oy, Visit(|sprite|, 0), k)
    ensures exists row, col :: 0 <= row < |sprite| && 0 <= col < 8 && BitSet(sprite[row], col)
                               && k == Cell(ox, oy, row, col)
  {
    var d := k - Cell(ox, oy, 0, 0);
    var row, col := d / VIDEO_WIDTH, d % VIDEO_WIDTH;
    assert k == Cell(ox, oy, row, col);
  }

  /** The whole blit erases a lit cell exactly when some set sprite bit lands on a cell
      that is on. */
  lemma CollidesIff(video: seq<u32>, sprite: seq<byte>, ox: nat, oy: nat)
    requires |video| == VIDEO_SIZE && Fits(sprite, ox, oy)
    ensures Collides(video, sprite, ox, oy, Visit(|sprite|, 0)) <==>
      exists row, col :: 0 <= row < |sprite| && 0 <= col < 8 && BitSet(sprite[row], col)
                         && video[Cell(ox, oy, row, col)] == PIXEL_ON
  {
    var limit := Visit(|sprite|, 0);
    if Collides(video, sprite, ox, oy, limit) {
      var k :| 0 <= k < |video| && Lit(sprite, ox, oy, limit, k) && video[k] == PIXEL_ON;
      LitVisit(sprite, ox, oy, k);
    }
    if exists row, col :: 0 <= row < |sprite| && 0 <= col < 8 && BitSet(sprite[row], col)
                          && video[Cell(ox, oy, row, col)] == PIXEL_ON {
      var row, col :| 0 <= row < |sprite| && 0 <= col < 8 && BitSet(sprite[row], col)
                      && video[Cell(ox, oy, row, col)] == PIXEL_ON;
      DrawnAtVisit(video, sprite, ox, oy, row, col);
    }
  }
}
