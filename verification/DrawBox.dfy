/** Drawing a detection's border into the display image, pixel by pixel. */
module DrawBox {

  datatype Pixel = Pixel(b: int, g: int, r: int)

  /** A box clipped to the image: columns x0 .. x1 - 1, rows y0 .. y1 - 1. */
  datatype Clip = Clip(x0: int, y0: int, x1: int, y1: int)

  function Clipped(rows: nat, cols: nat, x: int, y: int, w: int, h: int): Clip {
    Clip(if x < 0 then 0 else x, if y < 0 then 0 else y,
         if x + w > cols then cols else x + w, if y + h > rows then rows else y + h)
  }

  predicate Empty(c: Clip) {
    c.x0 >= c.x1 || c.y0 >= c.y1
  }

  predicate Inside(c: Clip, row: int, col: int) {
    c.y0 <= row < c.y1 && c.x0 <= col < c.x1
  }

  /** The pixel is on a line at most t - 1 away from one of the box's edges. */
  predicate OnBorder(c: Clip, t: nat, row: int, col: int) {
    || (c.x0 <= col < c.x1 && (c.y0 <= row < c.y0 + t || c.y1 - t <= row < c.y1))
    || (c.y0 <= row < c.y1 && (c.x0 <= col < c.x0 + t || c.x1 - t <= col < c.x1))
  }

  method HorizontalLine(img: array2<Pixel>, row: int, x0: int, x1: int, ink: Pixel)
    requires 0 <= row < img.Length0 && 0 <= x0 <= x1 <= img.Length1
    modifies img
    ensures forall r, c :: 0 <= r < img.Length0 && 0 <= c < img.Length1 ==>
              img[r, c] == if r == row && x0 <= c < x1 then ink else old(img[r, c])
  {
    for col := x0 to x1
      invariant forall r, c :: 0 <= r < img.Length0 && 0 <= c < img.Length1 ==>
                  img[r, c] == if r == row && x0 <= c < col then ink else old(img[r, c])
    {
      img[row, col] := ink;
    }
  }

  method VerticalLine(img: array2<Pixel>, col: int, y0: int, y1: int, ink: Pixel)
    requires 0 <= col < img.Length1 && 0 <= y0 <= y1 <= img.Length0
    modifies img
    ensures forall r, c :: 0 <= r < img.Length0 && 0 <= c < img.Length1 ==>
              img[r, c] == if c == col && y0 <= r < y1 then ink else old(img[r, c])
  {
    for row := y0 to y1
      invariant forall r, c :: 0 <= r < img.Length0 && 0 <= c < img.Length1 ==>
                  img[r, c] == if c == col && y0 <= r < row then ink else old(img[r, c])
    {
      img[row, col] := ink;
    }
  }

  /** draw_box_sw: exactly the border pixels of the clipped box take the colour,
      wherever the box lies. */
  method Draw(img: array2<Pixel>, x: int, y: int, w: int, h: int, ink: Pixel, thickness: nat)
    modifies img
    ensures var clip := Clipped(img.Length0, img.Length1, x, y, w, h);
      forall r, c :: 0 <= r < img.Length0 && 0 <= c < img.Length1 ==>
        img[r, c] == if !Empty(clip) && OnBorder(clip, thickness, r, c) then ink else old(img[r, c])
  {
    var clip := Clipped(img.Length0, img.Length1, x, y, w, h);
    if Empty(clip) {
      return;
    }
    for t := 0 to thickness
      invariant forall r, c :: 0 <= r < img.Length0 && 0 <= c < img.Length1 ==>
                  img[r, c] == if OnBorder(clip, t, r, c) then ink else old(img[r, c])
    {
      var row := clip.y0 + t;
      if row < img.Length0 {
        HorizontalLine(img, row, clip.x0, clip.x1, ink);
      }
      row := clip.y1 - 1 - t;
      if 0 <= row < img.Length0 {
        HorizontalLine(img, row, clip.x0, clip.x1, ink);
      }
      var col := clip.x0 + t;
      if col < img.Length1 {
        VerticalLine(img, col, clip.y0, clip.y1, ink);
      }
      col := clip.x1 - 1 - t;
      if 0 <= col < img.Length1 {
        VerticalLine(img, col, clip.y0, clip.y1, ink);
      }
    }
  }

  /** Some border pixel of the image lies outside the box. */
  ghost predicate Spills(rows: nat, cols: nat, c: Clip, t: nat) {
    exists row, col :: 0 <= row < rows && 0 <= col < cols && OnBorder(c, t, row, col) && !Inside(c, row, col)
  }

  /** The drawing leaves its box exactly when the box is thinner than the border
      in a direction in which there is image beyond it. */
  lemma SpillsIff(rows: nat, cols: nat, x: int, y: int, w: int, h: int, t: nat)
    requires !Empty(Clipped(rows, cols, x, y, w, h))
    ensures var c := Clipped(rows, cols, x, y, w, h);
      Spills(rows, cols, c, t) <==>
      || (t > c.y1 - c.y0 && (c.y0 > 0 || c.y1 < rows))
      || (t > c.x1 - c.x0 && (c.x0 > 0 || c.x1 < cols))
  {
    var c := Clipped(rows, cols, x, y, w, h);
    if t > c.y1 - c.y0 && c.y0 > 0 {
      assert OnBorder(c, t, c.y0 - 1, c.x0) && !Inside(c, c.y0 - 1, c.x0);
    }
    if t > c.y1 - c.y0 && c.y1 < rows {
      assert OnBorder(c, t, c.y1, c.x0) && !Inside(c, c.y1, c.x0);
    }
    if t > c.x1 - c.x0 && c.x0 > 0 {
      assert OnBorder(c, t, c.y0, c.x0 - 1) && !Inside(c, c.y0, c.x0 - 1);
    }
    if t > c.x1 - c.x0 && c.x1 < cols {
      assert OnBorder(c, t, c.y0, c.x1) && !Inside(c, c.y0, c.x1);
    }
  }

  /** Where the flat buffer keeps pixel (row, col): three bytes of it from here. */
  function FlatIndex(cols: nat, row: nat, col: nat): nat {
    (row * cols + col) * 3
  }

  /** Every pixel of the image has its three bytes inside the flat buffer. */
  lemma FlatInside(rows: nat, cols: nat, row: nat, col: nat)
    requires row < rows && col < cols
    ensures FlatIndex(cols, row, col) + 3 <= rows * cols * 3
  {
    assert (row + 1) * cols <= rows * cols;
    assert (row + 1) * cols == row * cols + cols;
  }

  /** No two pixels of the image share a byte. */
  lemma FlatApart(cols: nat, row: nat, col: nat, row': nat, col': nat)
    requires col < cols && col' < cols && (row < row' || (row == row' && col < col'))
    ensures FlatIndex(cols, row, col) + 3 <= FlatIndex(cols, row', col')
  {
    if row < row' {
      assert (row + 1) * cols <= row' * cols;
      assert (row + 1) * cols == row * cols + cols;
    }
  }
}
