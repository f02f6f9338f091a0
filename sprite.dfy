/** Sprite-sheet slicing and frame animation (sprite_with_frames.py). */
module Sprites {
  import opened Geometry
  import opened Arith

  /**
   * The sub-rectangle at list position k of a sheet of size sheetW x sheetH
   * cut into `cols` columns and `rows` rows.
   */
  function SheetFrame(sheetW: nat, sheetH: nat, cols: nat, rows: nat, k: nat): (r: Rect)
    requires cols > 0 && rows > 0
  {
    var w := sheetW / cols;
    var h := sheetH / rows;
    Rect((k % cols) * w, (k / cols) * h, w, h)
  }

  /** Position i * cols + j holds the frame in row i, column j. */
  lemma {:induction false} FrameAtRowCol(sheetW: nat, sheetH: nat, cols: nat, rows: nat, i: nat, j: nat)
    requires cols > 0 && rows > 0 && j < cols
    ensures SheetFrame(sheetW, sheetH, cols, rows, i * cols + j)
         == Rect(j * (sheetW / cols), i * (sheetH / rows), sheetW / cols, sheetH / rows)
  {
    DivModUnique(i * cols + j, cols, i, j);
  }

  /** Slot i of n equal slices of `size` lies inside [0, size]. */
  lemma SliceInside(i: nat, n: nat, size: nat)
    requires i < n
    ensures 0 <= i * (size / n) && i * (size / n) + size / n <= size
  {
    var w := size / n;
    assert size == w * n + size % n;
    MulLe(0, i, w);
    MulLe(i + 1, n, w);
    assert (i + 1) * w == i * w + w;
  }

  /** An index below rows * cols lies in one of the first `rows` rows. */
  lemma RowBelow(k: nat, cols: nat, rows: nat)
    requires cols > 0 && k < rows * cols
    ensures k / cols < rows
  {
    var r := k / cols;
    assert k == r * cols + k % cols;
    if r >= rows {
      MulLe(rows, r, cols);
    }
  }

  /** Every frame of the list lies inside the sheet, so every subsurface call is legal. */
  lemma {:induction false} FrameInsideSheet(sheetW: nat, sheetH: nat, cols: nat, rows: nat, k: nat)
    requires cols > 0 && rows > 0 && k < rows * cols
    ensures var f := SheetFrame(sheetW, sheetH, cols, rows, k);
      0 <= f.Left() && f.Right() <= sheetW && 0 <= f.Top() && f.Bottom() <= sheetH
  {
    RowBelow(k, cols, rows);
    SliceInside(k % cols, cols, sheetW);
    SliceInside(k / cols, rows, sheetH);
  }

  /** The frame index after one advance on row `row` (the modulo step of _frame_animation). */
  function NextFrame(index: int, cols: nat, row: int): (next: int)
    requires cols > 0
  {
    (index + 1) % cols + row * cols
  }

  /** An advance always lands in row `row`; inside the sheet when the row exists. */
  lemma NextFrameInRow(index: int, cols: nat, row: int, rows: nat)
    requires cols > 0
    ensures row * cols <= NextFrame(index, cols, row) < row * cols + cols
    ensures 0 <= row < rows ==> 0 <= NextFrame(index, cols, row) < rows * cols
  {
    if 0 <= row < rows {
      RowEndWithin(row, rows, cols);
    }
  }

  /** `n` advances in a row. */
  function Advance(index: int, cols: nat, row: int, n: nat): (i: int)
    requires cols > 0
  {
    if n == 0 then index else NextFrame(Advance(index, cols, row, n - 1), cols, row)
  }

  /** One advance from column m of row `row` reaches column (m + 1) mod cols of that row. */
  lemma NextFrameColumn(cols: nat, row: int, m: nat)
    requires cols > 0 && m < cols
    ensures NextFrame(row * cols + m, cols, row) == row * cols + (m + 1) % cols
  {
    ModAddRows(row, cols, m + 1);
  }

  /** From column a mod cols of row `row`, one advance reaches column (a + 1) mod cols. */
  lemma NextFrameWraps(cols: nat, row: int, a: nat, index: int)
    requires cols > 0 && index == row * cols + a % cols
    ensures NextFrame(index, cols, row) == row * cols + (a + 1) % cols
  {
    NextFrameColumn(cols, row, a % cols);
    ModSucc(a, cols);
  }

  /** One more advance moves one more column along the row, wrapping at its end. */
  lemma AdvanceStep(cols: nat, row: int, c: nat, n: nat)
    requires cols > 0 && c < cols && n > 0
    requires Advance(row * cols + c, cols, row, n - 1) == row * cols + (c + (n - 1)) % cols
    ensures Advance(row * cols + c, cols, row, n) == row * cols + (c + n) % cols
  {
    var prev := Advance(row * cols + c, cols, row, n - 1);
    NextFrameWraps(cols, row, c + (n - 1), prev);
  }

  /** From column c of row `row`, n advances reach column (c + n) mod cols of the same row. */
  lemma {:induction false} AdvanceColumn(cols: nat, row: int, c: nat, n: nat)
    requires cols > 0 && c < cols
    ensures Advance(row * cols + c, cols, row, n) == row * cols + (c + n) % cols
  {
    if n > 0 {
      AdvanceColumn(cols, row, c, n - 1);
      AdvanceStep(cols, row, c, n);
    } else {
      DivModUnique(c, cols, 0, c);
    }
  }

  /** `cols` advances on a fixed row bring the animation back to where it started. */
  lemma AdvanceCycle(cols: nat, row: int, c: nat)
    requires cols > 0 && c < cols
    ensures Advance(row * cols + c, cols, row, cols) == row * cols + c
  {
    AdvanceColumn(cols, row, c, cols);
    assert c + cols == 1 * cols + c;
    DivModUnique(c + cols, cols, 1, c);
  }

  class SpriteWithFrames {
    var frames: seq<Rect>
    var frameIndex: int
    var image: Rect
    var rect: Rect
    var lastUpdate: int
    var frameRate: int
    var frameCurrentRow: int
    var imageCols: nat
    var imageRows: nat
    var imageIsReverse: bool

    /** The frame list is the sliced sheet, and the current row and frame are inside it. */
    ghost predicate Valid()
      reads this
    {
      && imageCols > 0 && imageRows > 0
      && |frames| == imageRows * imageCols
      && 0 <= frameCurrentRow < imageRows
      && 0 <= frameIndex < |frames|
      && image == frames[frameIndex]
    }

    /**
     * _load_sprite_sheet: cut a sheetW x sheetH sheet into rows x cols frames,
     * row by row. The sheet's size is what loading the image file gives.
     */
    static method LoadSpriteSheet(sheetW: nat, sheetH: nat, cols: nat, rows: nat) returns (sprites: seq<Rect>)
      requires cols > 0 && rows > 0
      ensures |sprites| == rows * cols
      ensures forall k :: 0 <= k < |sprites| ==> sprites[k] == SheetFrame(sheetW, sheetH, cols, rows, k)
    {
      var w := sheetW / cols;
      var h := sheetH / rows;
      sprites := [];
      for i := 0 to rows
        invariant |sprites| == i * cols
        invariant forall k :: 0 <= k < |sprites| ==> sprites[k] == SheetFrame(sheetW, sheetH, cols, rows, k)
      {
        for j := 0 to cols
          invariant |sprites| == i * cols + j
          invariant forall k :: 0 <= k < |sprites| ==> sprites[k] == SheetFrame(sheetW, sheetH, cols, rows, k)
        {
          FrameAtRowCol(sheetW, sheetH, cols, rows, i, j);
          sprites := sprites + [Rect(j * w, i * h, w, h)];
        }
      }
    }

    /**
     * SpriteWithFrames.__init__. `sheetW`/`sheetH` stand for the loaded image's
     * size and `now` for pygame.time.get_ticks().
     */
    constructor (posX: int, posY: int, sheetW: nat, sheetH: nat, cols: nat, rows: nat,
                 spriteWidth: int, spriteHeight: int, isReverse: bool, now: int)
      requires cols > 0 && rows > 0
      ensures Valid()
      ensures |frames| == rows * cols
      ensures forall k :: 0 <= k < |frames| ==> frames[k] == SheetFrame(sheetW, sheetH, cols, rows, k)
      ensures frameIndex == 0 && frameCurrentRow == 0 && frameRate == 60 && lastUpdate == now
      ensures rect == Rect(posX, posY, spriteWidth, spriteHeight)
      ensures imageCols == cols && imageRows == rows && imageIsReverse == isReverse
    {
      var sheet := LoadSpriteSheet(sheetW, sheetH, cols, rows);
      assert rows * cols >= 1 by { assert rows * cols >= cols; }
      frames := sheet;
      frameIndex := 0;
      image := sheet[0];
      rect := Rect(posX, posY, spriteWidth, spriteHeight);
      lastUpdate := now;
      frameRate := 60;
      frameCurrentRow := 0;
      imageCols := cols;
      imageRows := rows;
      imageIsReverse := isReverse;
    }

    /**
     * _frame_animation, with the clock reading `now` passed in: advance one
     * frame along the current row once more than frameRate ticks have passed.
     */
    method FrameAnimation(now: int)
      requires Valid()
      modifies this
      ensures Valid()
      ensures now - old(lastUpdate) > old(frameRate) ==>
        lastUpdate == now && frameIndex == NextFrame(old(frameIndex), imageCols, frameCurrentRow)
      ensures now - old(lastUpdate) <= old(frameRate) ==>
        lastUpdate == old(lastUpdate) && frameIndex == old(frameIndex) && image == old(image)
      ensures frames == old(frames) && rect == old(rect) && frameRate == old(frameRate)
      ensures frameCurrentRow == old(frameCurrentRow) && imageCols == old(imageCols)
      ensures imageRows == old(imageRows) && imageIsReverse == old(imageIsReverse)
    {
      if now - lastUpdate > frameRate {
        NextFrameInRow(frameIndex, imageCols, frameCurrentRow, imageRows);
        lastUpdate := now;
        frameIndex := (frameIndex + 1) % imageCols;
        frameIndex := frameIndex + frameCurrentRow * imageCols;
        image := frames[frameIndex];
      }
    }
  }
}
