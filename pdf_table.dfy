/** The table the PDF exports draw: a header line, then one line per row, each cell a
    `doc.text(cell, x, y)` call. `x` starts at the margin on every line and moves right by
    the column's width after each cell; `y` starts 28 points below the margin and moves
    down 16 points after each line. Only the text calls are modelled; the drawing library
    itself is not. */
module PdfTable {
  const Margin: int := 40
  /** The baseline of the header line. */
  const HeaderY: int := Margin + 28
  const LineHeight: int := 16

  /** One `doc.text(text, x, y)` call. */
  datatype TextCmd = TextCmd(text: string, x: int, y: int)

  /** The left edge of column `i`: the margin plus the widths of the columns before it. */
  function ColumnX(widths: seq<int>, i: nat): int
    requires i <= |widths|
  {
    if i == 0 then Margin else ColumnX(widths, i - 1) + widths[i - 1]
  }

  /** The baseline of line `k`, the header being line 0. */
  function LineY(k: nat): (y: int)
    ensures y >= HeaderY
  {
    HeaderY + LineHeight * k
  }

  /** With positive widths the columns run strictly left to right, so no two cells of a
      line start at the same place, and each starts at or right of the margin. */
  lemma {:induction false} ColumnsIncrease(widths: seq<int>, i: nat, j: nat)
    requires forall k :: 0 <= k < |widths| ==> widths[k] > 0
    requires i < j <= |widths|
    ensures Margin <= ColumnX(widths, i) < ColumnX(widths, j)
  {
    if i + 1 < j {
      ColumnsIncrease(widths, i, j - 1);
    } else if i > 0 {
      ColumnsIncrease(widths, i - 1, i);
    }
  }

  /** The right edge of the last column is the margin plus the sum of the widths. */
  function Sum(widths: seq<int>): int {
    if widths == [] then 0 else Sum(widths[..|widths| - 1]) + widths[|widths| - 1]
  }

  lemma {:induction false} ColumnXIsSum(widths: seq<int>, i: nat)
    requires i <= |widths|
    ensures ColumnX(widths, i) == Margin + Sum(widths[..i])
  {
    if i > 0 {
      ColumnXIsSum(widths, i - 1);
      assert widths[..i][..i - 1] == widths[..i - 1];
    }
  }

  /** Draws one line: the `x` cursor starts at the margin and advances by each column's
      width after its cell. */
  method DrawLine(cells: seq<string>, widths: seq<int>, y: int) returns (line: seq<TextCmd>)
    requires |cells| == |widths|
    ensures |line| == |cells|
    ensures forall c :: 0 <= c < |cells| ==> line[c] == TextCmd(cells[c], ColumnX(widths, c), y)
  {
    var x := Margin;
    line := [];
    for i := 0 to |cells|
      invariant x == ColumnX(widths, i)
      invariant |line| == i
      invariant forall c :: 0 <= c < i ==> line[c] == TextCmd(cells[c], ColumnX(widths, c), y)
    {
      line := line + [TextCmd(cells[i], x, y)];
      x := x + widths[i];
    }
  }

  /** Draws the header line and then every row, moving the `y` cursor down one line
      height after each. Line `k` of the result holds the calls made for line `k`. */
  method LayoutTable(headers: seq<string>, widths: seq<int>, rows: seq<seq<string>>)
    returns (lines: seq<seq<TextCmd>>)
    requires |headers| == |widths|
    requires forall r :: 0 <= r < |rows| ==> |rows[r]| == |widths|
    ensures |lines| == |rows| + 1
    ensures forall k :: 0 <= k < |lines| ==> |lines[k]| == |widths|
    ensures forall c :: 0 <= c < |widths| ==> lines[0][c] == TextCmd(headers[c], ColumnX(widths, c), HeaderY)
    ensures forall r, c :: 0 <= r < |rows| && 0 <= c < |widths| ==>
      lines[r + 1][c] == TextCmd(rows[r][c], ColumnX(widths, c), LineY(r + 1))
  {
    var y := HeaderY;
    var header := DrawLine(headers, widths, y);
    lines := [header];
    y := y + LineHeight;
    for r := 0 to |rows|
      invariant y == LineY(r + 1)
      invariant |lines| == r + 1
      invariant lines[0] == header
      invariant forall k :: 0 <= k < |lines| ==> |lines[k]| == |widths|
      invariant forall k, c :: 0 <= k < r && 0 <= c < |widths| ==>
        lines[k + 1][c] == TextCmd(rows[k][c], ColumnX(widths, c), LineY(k + 1))
    {
      var line := DrawLine(rows[r], widths, y);
      lines := lines + [line];
      y := y + LineHeight;
    }
  }
}
