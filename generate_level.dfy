/**
 * The grid helpers of `GenerateLevel`: allocating a level's `int[,]` map, the
 * path constructor (whose body is empty), and the row-by-row text dump that
 * `PrintMap` sends to the console. A cell value of 0 means "not on the path".
 */
module GenerateLevel {
  import opened Options
  import opened IntText

  /** A size-by-size map whose every cell is 0, freshly allocated. */
  method GenerateArray(size: nat) returns (grid: array2<int>)
    ensures fresh(grid)
    ensures grid.Length0 == size && grid.Length1 == size
    ensures forall x, y | 0 <= x < size && 0 <= y < size :: grid[x, y] == 0
  {
    grid := new int[size, size];
    for x := 0 to size
      invariant forall i, j | 0 <= i < x && 0 <= j < size :: grid[i, j] == 0
    {
      for y := 0 to size
        invariant forall i, j | 0 <= i < x && 0 <= j < size :: grid[i, j] == 0
        invariant forall j | 0 <= j < y :: grid[x, j] == 0
      {
        grid[x, y] := 0;
      }
    }
  }

  /** The path constructor: it may write the map, and leaves it as it was. */
  method ConstructPath(grid: array2<int>)
    modifies grid
    ensures unchanged(grid)
  {
  }

  /** Row `r` of the map, in column order. */
  function RowOf(grid: array2<int>, r: nat): (row: seq<int>)
    requires r < grid.Length0
    reads grid
    ensures |row| == grid.Length1
    ensures forall c | 0 <= c < grid.Length1 :: row[c] == grid[r, c]
  {
    seq(grid.Length1, c requires 0 <= c < grid.Length1 reads grid => grid[r, c])
  }

  /** One console line: each value's decimal text followed by a single space. */
  function RowString(cells: seq<int>): string {
    if cells == [] then "" else ToDecimal(cells[0]) + " " + RowString(cells[1..])
  }

  /** The line grows at its end as the column loop appends one cell. */
  lemma {:induction false} RowStringAppend(cells: seq<int>, v: int)
    ensures RowString(cells + [v]) == RowString(cells) + ToDecimal(v) + " "
  {
    if cells == [] {
      assert [v][1..] == [];
    } else {
      assert (cells + [v])[1..] == cells[1..] + [v];
      RowStringAppend(cells[1..], v);
    }
  }

  /** Index of the first space in `s`, or `|s|` when there is none. */
  function IndexOfSpace(s: string): (i: nat)
    ensures i <= |s| && (i < |s| ==> s[i] == ' ')
    ensures forall j | 0 <= j < i :: s[j] != ' '
  {
    if s == [] then 0 else if s[0] == ' ' then 0 else 1 + IndexOfSpace(s[1..])
  }

  /** Reads a line of space-terminated decimals back into the cell values. */
  function ParseRow(s: string): Option<seq<int>>
    decreases |s|
  {
    if s == [] then Some([])
    else
      var i := IndexOfSpace(s);
      if i == |s| then None
      else match (ParseDecimal(s[..i]), ParseRow(s[i + 1..]))
        case (Some(v), Some(vs)) => Some([v] + vs)
        case _ => None
  }

  /** A printed row determines the row: reading the line back gives the values in column order. */
  lemma {:induction false} ParseRowString(cells: seq<int>)
    ensures ParseRow(RowString(cells)) == Some(cells)
  {
    if cells != [] {
      var word := ToDecimal(cells[0]);
      var rest := RowString(cells[1..]);
      var s := word + " " + rest;
      assert s == RowString(cells);
      assert s[|word|] == ' ';
      assert forall j | 0 <= j < |word| :: s[j] == word[j];
      assert IndexOfSpace(s) == |word|;
      assert s[..|word|] == word;
      assert s[|word| + 1..] == rest;
      ParseDecimalToDecimal(cells[0]);
      ParseRowString(cells[1..]);
      assert [cells[0]] + cells[1..] == cells;
    }
  }

  /**
   * The console output of `PrintMap`: one line per row, in row order, and no
   * change to the map. Each line reads back as that row's values.
   */
  method PrintMap(grid: array2<int>) returns (lines: seq<string>)
    ensures |lines| == grid.Length0
    ensures forall r | 0 <= r < grid.Length0 :: lines[r] == RowString(RowOf(grid, r))
    ensures forall r | 0 <= r < grid.Length0 :: ParseRow(lines[r]) == Some(RowOf(grid, r))
  {
    lines := [];
    for row := 0 to grid.Length0
      invariant |lines| == row
      invariant forall r | 0 <= r < row :: lines[r] == RowString(RowOf(grid, r))
    {
      ghost var cells := RowOf(grid, row);
      var rowOutput := "";
      for col := 0 to grid.Length1
        invariant rowOutput == RowString(cells[..col])
      {
        assert cells[..col + 1] == cells[..col] + [grid[row, col]];
        RowStringAppend(cells[..col], grid[row, col]);
        rowOutput := rowOutput + ToDecimal(grid[row, col]) + " ";
      }
      assert cells[..grid.Length1] == cells;
      lines := lines + [rowOutput];
    }
    forall r | 0 <= r < grid.Length0
      ensures ParseRow(lines[r]) == Some(RowOf(grid, r))
    {
      ParseRowString(RowOf(grid, r));
    }
  }
}
