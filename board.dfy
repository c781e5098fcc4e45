/** The text board renderer of generate_data.py: star points, the column guide and `ascii_board`. */
module Board {
  import opened Wrappers
  import opened Text

  /** A stone as the game reports it: its player ("B" or "W") and its 0-indexed coordinates. */
  datatype Stone = Stone(player: string, x: int, y: int)

  /** What the renderer reads of a game: the board size as (width, height), the stones in play order. */
  datatype Game = Game(width: nat, height: nat, stones: seq<Stone>, nextPlayer: string)

  /** Why `ascii_board` raises: the size assertion, or a stone whose coordinates do not index the grid. */
  datatype RenderError = NotSquare | StoneOffBoard(index: nat)

  // ---------------------------------------------------------------- star points

  /** Distance of the outer star lines from the edge, counted from 1. */
  function Spacing(size: int): int
  {
    if size >= 11 then 4 else 3
  }

  /** The set `s` of `star_points` exactly as built: `(size + 1) / 2` is true division, a float. */
  function StarLines(size: nat): set<real>
  {
    var d := Spacing(size);
    {(d - 1) as real, (size - d) as real, (size + 1) as real / 2.0}
  }

  /** All on-board points both of whose coordinates lie in `StarLines(size)`: `{x, y} <= s`. */
  function StarPoints(size: nat): set<(int, int)>
  {
    set x: int, y: int | 0 <= x < size && 0 <= y < size && {x as real, y as real} <= StarLines(size) :: (x, y)
  }

  /** The integer coordinates of the star lines: the two outer lines, and the centre value when the size is odd. */
  function StarCoords(size: nat): set<int>
  {
    var d := Spacing(size);
    {d - 1, size - d} + (if size % 2 == 1 then {(size + 1) / 2} else {})
  }

  /** An integer meets the float centre `(size + 1) / 2` only when the size is odd. */
  lemma CentreHit(size: nat, v: int)
    ensures v as real == (size + 1) as real / 2.0 <==> size % 2 == 1 && v == (size + 1) / 2
  {
    if v as real == (size + 1) as real / 2.0 {
      assert (2 * v) as real == (size + 1) as real;
      assert 2 * v == size + 1;
    }
    if size % 2 == 1 && v == (size + 1) / 2 {
      assert 2 * v == size + 1;
      assert (2 * v) as real == (size + 1) as real;
    }
  }

  lemma OnStarLine(size: nat, v: int)
    ensures v as real in StarLines(size) <==> v in StarCoords(size)
  {
    CentreHit(size, v);
  }

  /** The star points are exactly the on-board pairs whose two coordinates are star coordinates. */
  lemma StarPointsByCoords(size: nat)
    ensures forall x: int, y: int :: (x, y) in StarPoints(size) <==>
      0 <= x < size && 0 <= y < size && x in StarCoords(size) && y in StarCoords(size)
  {
    forall x: int, y: int
      ensures (x, y) in StarPoints(size) <==>
        0 <= x < size && 0 <= y < size && x in StarCoords(size) && y in StarCoords(size)
    {
      OnStarLine(size, x);
      OnStarLine(size, y);
      assert {x as real, y as real} <= StarLines(size) <==> x as real in StarLines(size) && y as real in StarLines(size);
    }
  }

  /** On a 19x19 board the centre star lies on coordinate 10, not 9: (10, 10) is a star point and its mirror image (8, 8) is not. */
  lemma StarPointsOf19()
    ensures StarCoords(19) == {3, 10, 15}
    ensures (3, 3) in StarPoints(19) && (15, 3) in StarPoints(19) && (10, 10) in StarPoints(19)
    ensures (8, 8) !in StarPoints(19) && (9, 9) !in StarPoints(19)
  {
    StarPointsByCoords(19);
  }

  /** On an even board no coordinate meets the centre, so only the two outer lines remain. */
  lemma StarPointsEven(size: nat)
    requires size % 2 == 0
    ensures StarCoords(size) == {Spacing(size) - 1, size - Spacing(size)}
  {
  }

  // ---------------------------------------------------------------- the guide

  /** The column-letter string the guide is cut from: three blanks, then A to Z without I, one blank apart.
      It is the single 52-character literal of the renderer, written in three pieces so that indexing it stays cheap to prove. */
  const ColumnLabels: string := "   A B C D E F G H J " + "K L M N O P Q R S " + "T U V W X Y Z"

  /** `ColumnLabels[:size * 2 + 2]` (a Python slice past the end stops at the end). */
  function Guide(size: nat): string
  {
    ColumnLabels[..if 2 * size + 2 <= |ColumnLabels| then 2 * size + 2 else |ColumnLabels|]
  }

  /** The GTP column letter of column k: A to Z, skipping I. */
  function ColumnLetter(k: nat): char
    requires k < 25
  {
    if k < 8 then (65 + k) as char else (66 + k) as char
  }

  /** The column letters are capitals, never 'I', and strictly increasing, hence distinct. */
  lemma ColumnLettersSkipI(j: nat, k: nat)
    requires j < k < 25
    ensures 'A' <= ColumnLetter(k) <= 'Z' && ColumnLetter(k) != 'I' && ColumnLetter(j) != 'I'
    ensures ColumnLetter(j) < ColumnLetter(k)
  {
  }

  /** Columns A to J (no I) sit in the first piece of the guide. */
  lemma LettersAToJ()
    ensures forall k :: 0 <= k < 9 ==> ColumnLabels[3 + 2 * k] == ColumnLetter(k)
  {
    forall k | 0 <= k < 9 ensures ColumnLabels[3 + 2 * k] == ColumnLetter(k) {
      if k == 0 { assert ColumnLabels[3] == 'A'; }
      else if k == 1 { assert ColumnLabels[5] == 'B'; }
      else if k == 2 { assert ColumnLabels[7] == 'C'; }
      else if k == 3 { assert ColumnLabels[9] == 'D'; }
      else if k == 4 { assert ColumnLabels[11] == 'E'; }
      else if k == 5 { assert ColumnLabels[13] == 'F'; }
      else if k == 6 { assert ColumnLabels[15] == 'G'; }
      else if k == 7 { assert ColumnLabels[17] == 'H'; }
      else { assert ColumnLabels[19] == 'J'; }
    }
  }

  /** Columns K to S sit in the second piece. */
  lemma LettersKToS()
    ensures forall k :: 9 <= k < 18 ==> ColumnLabels[3 + 2 * k] == ColumnLetter(k)
  {
    forall k | 9 <= k < 18 ensures ColumnLabels[3 + 2 * k] == ColumnLetter(k) {
      if k == 9 { assert ColumnLabels[21] == 'K'; }
      else if k == 10 { assert ColumnLabels[23] == 'L'; }
      else if k == 11 { assert ColumnLabels[25] == 'M'; }
      else if k == 12 { assert ColumnLabels[27] == 'N'; }
      else if k == 13 { assert ColumnLabels[29] == 'O'; }
      else if k == 14 { assert ColumnLabels[31] == 'P'; }
      else if k == 15 { assert ColumnLabels[33] == 'Q'; }
      else if k == 16 { assert ColumnLabels[35] == 'R'; }
      else { assert ColumnLabels[37] == 'S'; }
    }
  }

  /** Columns T to Z sit in the third piece. */
  lemma LettersTToZ()
    ensures forall k :: 18 <= k < 25 ==> ColumnLabels[3 + 2 * k] == ColumnLetter(k)
  {
    forall k | 18 <= k < 25 ensures ColumnLabels[3 + 2 * k] == ColumnLetter(k) {
      if k == 18 { assert ColumnLabels[39] == 'T'; }
      else if k == 19 { assert ColumnLabels[41] == 'U'; }
      else if k == 20 { assert ColumnLabels[43] == 'V'; }
      else if k == 21 { assert ColumnLabels[45] == 'W'; }
      else if k == 22 { assert ColumnLabels[47] == 'X'; }
      else if k == 23 { assert ColumnLabels[49] == 'Y'; }
      else { assert ColumnLabels[51] == 'Z'; }
    }
  }

  /** Letter k of the guide is the k-th column letter. */
  lemma LabelLetters()
    ensures |ColumnLabels| == 52
    ensures forall k :: 0 <= k < 25 ==> ColumnLabels[3 + 2 * k] == ColumnLetter(k)
  {
    LettersAToJ();
    LettersKToS();
    LettersTToZ();
  }

  /** The first three characters of the guide and every even position are blanks. */
  lemma LabelBlanks()
    ensures forall i :: 0 <= i < 52 && (i < 3 || i % 2 == 0) ==> ColumnLabels[i] == ' '
  {
    forall i | 0 <= i < 52 && (i < 3 || i % 2 == 0) ensures ColumnLabels[i] == ' ' {
      assert i in {0, 1, 2, 4, 6, 8, 10, 12, 14, 16, 18, 20, 22, 24, 26, 28, 30, 32, 34, 36, 38, 40, 42, 44, 46, 48, 50};
    }
  }

  lemma LabelsLayout()
    ensures |ColumnLabels| == 52
    ensures forall k :: 0 <= k < 25 ==> ColumnLabels[3 + 2 * k] == ColumnLetter(k)
    ensures forall i :: 0 <= i < 52 && (i < 3 || i % 2 == 0) ==> ColumnLabels[i] == ' '
    ensures '\n' !in ColumnLabels
  {
    LabelLetters();
    LabelBlanks();
    forall i | 0 <= i < 52 ensures ColumnLabels[i] != '\n' {
      if !(i < 3 || i % 2 == 0) {
        var k := (i - 3) / 2;
        assert i == 3 + 2 * k && ColumnLabels[3 + 2 * k] == ColumnLetter(k);
      }
    }
  }

  /** Up to size 25 the guide has 2 * size + 2 characters, letter k at index 3 + 2k, and blanks elsewhere: exactly `size` letters. */
  lemma GuideLayout(size: nat)
    requires size <= 25
    ensures |Guide(size)| == 2 * size + 2
    ensures forall k :: 0 <= k < size ==> Guide(size)[3 + 2 * k] == ColumnLetter(k)
    ensures forall i :: 0 <= i < |Guide(size)| && (i < 3 || i % 2 == 0) ==> Guide(size)[i] == ' '
  {
    LabelsLayout();
  }

  // ---------------------------------------------------------------- cells

  /** Where a Python index lands: a negative one counts from the end. */
  function PyIndex(v: int, n: nat): int
  {
    if v < 0 then v + n else v
  }

  /** `cells[y][x]` exists for these coordinates: both in [-size, size). */
  predicate OnBoard(st: Stone, size: nat)
  {
    -(size as int) <= st.x < size && -(size as int) <= st.y < size
  }

  /** The stone is written to cell (x, y). */
  predicate Lands(st: Stone, size: nat, x: int, y: int)
  {
    PyIndex(st.x, size) == x && PyIndex(st.y, size) == y
  }

  /** A black stone shows `black`, any other player `white`. */
  function Glyph(st: Stone, black: string, white: string): string
  {
    if st.player == "B" then black else white
  }

  /** The index of the first stone that does not index the grid. */
  function FirstOffBoard(stones: seq<Stone>, size: nat): (r: Option<nat>)
    ensures r.Some? ==>
              && r.value < |stones| && !OnBoard(stones[r.value], size)
              && forall j :: 0 <= j < r.value ==> OnBoard(stones[j], size)
    ensures r.None? ==> forall j :: 0 <= j < |stones| ==> OnBoard(stones[j], size)
  {
    if |stones| == 0 then None
    else if !OnBoard(stones[0], size) then Some(0)
    else match FirstOffBoard(stones[1..], size)
      case None => None
      case Some(i) => Some(i + 1)
  }

  /** The index of the last stone written to cell (x, y), if any. */
  function LastStoneAt(stones: seq<Stone>, size: nat, x: int, y: int): (r: Option<nat>)
    ensures r.Some? ==>
              && r.value < |stones| && Lands(stones[r.value], size, x, y)
              && forall j :: r.value < j < |stones| ==> !Lands(stones[j], size, x, y)
    ensures r.None? ==> forall j :: 0 <= j < |stones| ==> !Lands(stones[j], size, x, y)
  {
    if |stones| == 0 then None
    else if Lands(stones[|stones| - 1], size, x, y) then Some(|stones| - 1)
    else LastStoneAt(stones[..|stones| - 1], size, x, y)
  }

  /** What an empty cell shows: `,` on a star point, `.` elsewhere. */
  function EmptyMark(size: nat, x: int, y: int): string
  {
    if (x, y) in StarPoints(size) then "," else "."
  }

  /** The text of cell (x, y) once `stones` are overlaid in order. */
  function CellText(stones: seq<Stone>, size: nat, black: string, white: string, x: int, y: int): string
  {
    match LastStoneAt(stones, size, x, y)
    case Some(i) => Glyph(stones[i], black, white)
    case None => EmptyMark(size, x, y)
  }

  /** Laying one more stone changes the cell it is written to, to its glyph, and no other cell. */
  lemma {:induction false} AddStone(stones: seq<Stone>, st: Stone, size: nat, black: string, white: string, x: int, y: int)
    ensures CellText(stones + [st], size, black, white, x, y)
      == if Lands(st, size, x, y) then Glyph(st, black, white) else CellText(stones, size, black, white, x, y)
  {
    assert (stones + [st])[..|stones|] == stones;
  }

  // ---------------------------------------------------------------- rows and lines

  /** Row y's cells from left to right. */
  function Row(game: Game, black: string, white: string, y: int): seq<string>
  {
    seq(game.width, x => CellText(game.stones, game.width, black, white, x, y))
  }

  /** A printed row: `str(n).rjust(2)`, a blank, the cells one blank apart, a blank, `str(n)`. */
  function RowLine(n: nat, cells: seq<string>): string
  {
    Labelled(NatToString(n), cells)
  }

  /** The f-string `f"{coord_left} {row_contents} {coord_right}"` for the label `num`. */
  function Labelled(num: string, cells: seq<string>): string
  {
    RJust(num, 2, ' ') + " " + Join(" ", cells) + " " + num
  }

  /** The guide, the rows labelled size down to 1 (row y carries label y + 1), and the guide again. */
  function BoardLines(game: Game, black: string, white: string): seq<string>
  {
    var size := game.width;
    [Guide(size)] + seq(size, i requires 0 <= i < size => RowLine(size - i, Row(game, black, white, size - 1 - i))) + [Guide(size)]
  }

  /** `ascii_board` as a value: the errors it raises, else its lines joined by newlines. */
  function BoardText(game: Game, black: string, white: string): Result<string, RenderError>
  {
    if game.width != game.height then Err(NotSquare)
    else match FirstOffBoard(game.stones, game.width)
      case Some(i) => Err(StoneOffBoard(i))
      case None => Ok(Join("\n", BoardLines(game, black, white)))
  }

  /** The grid holds, for every cell, its text after `stones` are overlaid. */
  ghost predicate GridIs(cells: seq<seq<string>>, stones: seq<Stone>, size: nat, black: string, white: string)
  {
    && |cells| == size
    && (forall y :: 0 <= y < size ==> |cells[y]| == size)
    && forall y, x :: 0 <= y < size && 0 <= x < size ==> cells[y][x] == CellText(stones, size, black, white, x, y)
  }

  /** Before any stone is written, the grid of marks is the empty board. */
  lemma GridInit(size: nat, black: string, white: string)
    ensures GridIs(seq(size, y => seq(size, x => EmptyMark(size, x, y))), [], size, black, white)
  {
  }

  /** Writing one more stone's glyph into the grid keeps it in step with the stones. */
  lemma GridStep(cells: seq<seq<string>>, stones: seq<Stone>, st: Stone, size: nat, black: string, white: string)
    requires GridIs(cells, stones, size, black, white) && OnBoard(st, size)
    ensures var cx, cy := PyIndex(st.x, size), PyIndex(st.y, size);
      GridIs(cells[cy := cells[cy][cx := Glyph(st, black, white)]], stones + [st], size, black, white)
  {
    forall y, x | 0 <= y < size && 0 <= x < size {
      AddStone(stones, st, size, black, white, x, y);
    }
  }

  /** The printed lines, once the grid is complete, are the board's lines. */
  lemma LinesOfGrid(game: Game, black: string, white: string, cells: seq<seq<string>>, rows: seq<string>)
    requires game.width == game.height
    requires GridIs(cells, game.stones, game.width, black, white)
    requires RowsPrinted(rows, cells, Guide(game.width), 0)
    ensures rows + [Guide(game.width)] == BoardLines(game, black, white)
  {
    var size := game.width;
    forall y | 0 <= y < size ensures cells[y] == Row(game, black, white, y) {
    }
  }

  /** The row lines from the top row down to row y, row r labelled r + 1. */
  ghost function RowsFrom(cells: seq<seq<string>>, y: nat): seq<string>
    requires y <= |cells|
  {
    seq(|cells| - y, k requires 0 <= k < |cells| - y => RowLine(|cells| - k, cells[|cells| - 1 - k]))
  }

  /** The guide and then the rows from the top down to row y have been printed. */
  ghost predicate RowsPrinted(lines: seq<string>, cells: seq<seq<string>>, guide: string, y: nat)
  {
    y <= |cells| && lines == [guide] + RowsFrom(cells, y)
  }

  /** Printing row y next keeps the lines in step. */
  lemma RowsPrintedStep(lines: seq<string>, cells: seq<seq<string>>, guide: string, y: nat, line: string)
    requires y < |cells| && RowsPrinted(lines, cells, guide, y + 1)
    requires line == RowLine(y + 1, cells[y])
    ensures RowsPrinted(lines + [line], cells, guide, y)
  {
    assert RowsFrom(cells, y) == RowsFrom(cells, y + 1) + [line];
  }

  /** The stone at index i is the first that does not index the grid. */
  lemma FirstOffBoardAt(stones: seq<Stone>, size: nat, i: nat)
    requires i < |stones| && !OnBoard(stones[i], size)
    requires forall j :: 0 <= j < i ==> OnBoard(stones[j], size)
    ensures FirstOffBoard(stones, size) == Some(i)
  {
  }

  /** The first half of `ascii_board`: fill a grid with marks and overwrite it stone by stone. A stone that does not
      index the grid raises IndexError, reported as the index of that stone. */
  method FillGrid(game: Game, black: string, white: string) returns (cells: seq<seq<string>>, off: Option<nat>)
    ensures off == FirstOffBoard(game.stones, game.width)
    ensures off.None? ==> GridIs(cells, game.stones, game.width, black, white)
  {
    var size := game.width;
    cells := seq(size, y => seq(size, x => EmptyMark(size, x, y)));
    GridInit(size, black, white);
    assert game.stones[..0] == [];

    var i := 0;
    while i < |game.stones|
      invariant 0 <= i <= |game.stones|
      invariant forall j :: 0 <= j < i ==> OnBoard(game.stones[j], size)
      invariant GridIs(cells, game.stones[..i], size, black, white)
    {
      var st := game.stones[i];
      if !OnBoard(st, size) {
        FirstOffBoardAt(game.stones, size, i);
        return cells, Some(i);
      }
      GridStep(cells, game.stones[..i], st, size, black, white);
      var cx, cy := PyIndex(st.x, size), PyIndex(st.y, size);
      cells := cells[cy := cells[cy][cx := Glyph(st, black, white)]];
      assert game.stones[..i + 1] == game.stones[..i] + [st];
      i := i + 1;
    }
    assert game.stones[..i] == game.stones;
    off := None;
  }

  /** The second half: the guide, then the rows from the top one down. */
  method PrintRows(cells: seq<seq<string>>, guide: string) returns (lines: seq<string>)
    ensures RowsPrinted(lines, cells, guide, 0)
  {
    lines := [guide];
    var y := |cells|;
    while y > 0
      invariant 0 <= y <= |cells|
      invariant RowsPrinted(lines, cells, guide, y)
    {
      y := y - 1;
      var rowContents := Join(" ", cells[y]);
      var coordLeft := RJust(NatToString(y + 1), 2, ' ');
      var coordRight := NatToString(y + 1);
      var line := coordLeft + " " + rowContents + " " + coordRight;
      assert line == RowLine(y + 1, cells[y]);
      RowsPrintedStep(lines, cells, guide, y, line);
      lines := lines + [line];
    }
  }

  /** `ascii_board`: fill the grid, then print it from the top row down between two guides. */
  method RenderBoard(game: Game, black: string, white: string) returns (r: Result<string, RenderError>)
    ensures r == BoardText(game, black, white)
  {
    if game.width != game.height {
      return Err(NotSquare);
    }
    var cells, off := FillGrid(game, black, white);
    if off.Some? {
      return Err(StoneOffBoard(off.value));
    }
    var guide := Guide(game.width);
    var lines := PrintRows(cells, guide);
    LinesOfGrid(game, black, white, cells, lines);
    lines := lines + [guide];
    r := Ok(Join("\n", lines));
  }


  // ---------------------------------------------------------------- properties of the rendering

  /** Rendering fails exactly when the board is not square or a stone does not index the grid, and names the first such
      stone; otherwise the text is the board's lines joined by newlines. */
  lemma BoardTextOutcome(game: Game, black: string, white: string)
    ensures BoardText(game, black, white) == Err(NotSquare) <==> game.width != game.height
    ensures BoardText(game, black, white).Ok? <==>
      game.width == game.height && forall j :: 0 <= j < |game.stones| ==> OnBoard(game.stones[j], game.width)
    ensures forall i: nat :: BoardText(game, black, white) == Err(StoneOffBoard(i)) <==>
      && game.width == game.height && i < |game.stones| && !OnBoard(game.stones[i], game.width)
      && forall j :: 0 <= j < i ==> OnBoard(game.stones[j], game.width)
    ensures BoardText(game, black, white).Ok? ==> BoardText(game, black, white).value == Join("\n", BoardLines(game, black, white))
  {
    forall i: nat | game.width == game.height && i < |game.stones| && !OnBoard(game.stones[i], game.width)
        && (forall j :: 0 <= j < i ==> OnBoard(game.stones[j], game.width))
      ensures BoardText(game, black, white) == Err(StoneOffBoard(i))
    {
      FirstOffBoardAt(game.stones, game.width, i);
    }
  }

  /** A board prints as size + 2 lines, the guide first and last. */
  lemma BoardShape(game: Game, black: string, white: string)
    ensures var lines := BoardLines(game, black, white);
      && |lines| == game.width + 2
      && lines[0] == Guide(game.width) && lines[game.width + 1] == Guide(game.width)
  {
  }

  /** Line i of the board, for 1 <= i <= size, prints row `size - i` labelled `size - i + 1`: the top row comes first. */
  lemma BoardRowLine(game: Game, black: string, white: string, i: nat)
    requires 1 <= i <= game.width
    ensures |BoardLines(game, black, white)| == game.width + 2
    ensures BoardLines(game, black, white)[i] == RowLine(game.width - i + 1, Row(game, black, white, game.width - i))
  {
  }

  lemma RowLineFree(n: nat, cells: seq<string>)
    requires forall x :: 0 <= x < |cells| ==> '\n' !in cells[x]
    ensures '\n' !in RowLine(n, cells)
  {
    JoinFree(" ", cells, '\n');
    var s := NatToString(n);
    assert forall i :: 0 <= i < |s| ==> s[i] != '\n';
  }

  /** When neither glyph contains a newline, no line of the board does. */
  lemma BoardLinesOneLine(game: Game, black: string, white: string)
    requires '\n' !in black && '\n' !in white
    ensures forall i :: 0 <= i < |BoardLines(game, black, white)| ==> '\n' !in BoardLines(game, black, white)[i]
  {
    var size := game.width;
    var lines := BoardLines(game, black, white);
    LabelsLayout();
    forall i | 0 <= i < |lines| ensures '\n' !in lines[i] {
      if 1 <= i <= size {
        var cells := Row(game, black, white, size - i);
        forall x | 0 <= x < |cells| ensures '\n' !in cells[x] {
        }
        RowLineFree(size - i + 1, cells);
      }
    }
  }

  /** When neither glyph contains a newline, splitting the rendered text on newlines gives back exactly the size + 2 lines. */
  lemma BoardLineCount(game: Game, black: string, white: string)
    requires BoardText(game, black, white).Ok?
    requires '\n' !in black && '\n' !in white
    ensures Split(BoardText(game, black, white).value, '\n') == BoardLines(game, black, white)
    ensures |Split(BoardText(game, black, white).value, '\n')| == game.width + 2
  {
    BoardLinesOneLine(game, black, white);
    SplitJoin(BoardLines(game, black, white), '\n');
  }

  /** With a label of at most two characters and one-character cells, cell x of a row sits at index 3 + 2x,
      after the right-justified label and a blank. */
  lemma LabelledAlignment(num: string, cells: seq<string>)
    requires 1 <= |num| <= 2 && |cells| >= 1
    requires forall x :: 0 <= x < |cells| ==> |cells[x]| == 1
    ensures |Labelled(num, cells)| == 2 * |cells| + 3 + |num|
    ensures Labelled(num, cells)[..2] == RJust(num, 2, ' ') && Labelled(num, cells)[2] == ' '
    ensures forall x :: 0 <= x < |cells| ==> Labelled(num, cells)[3 + 2 * x] == cells[x][0]
  {
    var tag := RJust(num, 2, ' ');
    var middle := Join(" ", cells);
    RJustShape(num, 2, ' ');
    JoinSingles(' ', cells);
    LineLayout(tag, middle, num);
    forall x | 0 <= x < |cells| ensures Labelled(num, cells)[3 + 2 * x] == cells[x][0] {
      assert Labelled(num, cells)[3 + 2 * x] == middle[2 * x];
    }
  }

  /** Rows are labelled 1 to 99 with one or two digits, so the same holds of every row line. */
  lemma RowAlignment(n: nat, cells: seq<string>)
    requires 1 <= n <= 99 && |cells| >= 1
    requires forall x :: 0 <= x < |cells| ==> |cells[x]| == 1
    ensures |RowLine(n, cells)| == 2 * |cells| + 3 + |NatToString(n)|
    ensures RowLine(n, cells)[..2] == RJust(NatToString(n), 2, ' ') && RowLine(n, cells)[2] == ' '
    ensures forall x :: 0 <= x < |cells| ==> RowLine(n, cells)[3 + 2 * x] == cells[x][0]
    ensures Aligned(RowLine(n, cells), cells)
  {
    LabelledAlignment(NatToString(n), cells);
  }

  /** Where the pieces of a row line sit: the two-character label, a blank, the cells, a blank, the label. */
  lemma LineLayout(tag: string, middle: string, num: string)
    requires |tag| == 2
    ensures var line := tag + " " + middle + " " + num;
      && |line| == 4 + |middle| + |num|
      && line[..2] == tag && line[2] == ' '
      && forall m :: 0 <= m < |middle| ==> line[3 + m] == middle[m]
  {
    var line := tag + " " + middle + " " + num;
    assert line[..2] == tag;
  }

  /** Each cell's first character is printed at index 3 + 2x of the line. */
  predicate Aligned(line: string, cells: seq<string>)
  {
    forall x :: 0 <= x < |cells| ==> 3 + 2 * x < |line| && |cells[x]| >= 1 && line[3 + 2 * x] == cells[x][0]
  }

  /** On boards up to 25 with one-character glyphs, every cell is printed in the column of its guide letter. */
  lemma BoardAlignment(game: Game, black: string, white: string)
    requires 1 <= game.width <= 25 && |black| == 1 && |white| == 1
    ensures |BoardLines(game, black, white)| == game.width + 2
    ensures forall x :: 0 <= x < game.width ==> BoardLines(game, black, white)[0][3 + 2 * x] == ColumnLetter(x)
    ensures forall i :: 1 <= i <= game.width ==>
      Aligned(BoardLines(game, black, white)[i], Row(game, black, white, game.width - i))
  {
    GuideLayout(game.width);
    forall i | 1 <= i <= game.width ensures Aligned(BoardLines(game, black, white)[i], Row(game, black, white, game.width - i)) {
      RowAligned(game, black, white, i);
    }
  }

  lemma CellWidth(stones: seq<Stone>, size: nat, black: string, white: string, x: int, y: int)
    requires |black| == 1 && |white| == 1
    ensures |CellText(stones, size, black, white, x, y)| == 1
  {
  }

  /** With one-character glyphs every cell of a row is one character wide. */
  lemma RowWidths(game: Game, black: string, white: string, y: int)
    requires |black| == 1 && |white| == 1
    ensures forall z :: 0 <= z < |Row(game, black, white, y)| ==> |Row(game, black, white, y)[z]| == 1
  {
    forall z | 0 <= z < |Row(game, black, white, y)| ensures |Row(game, black, white, y)[z]| == 1 {
      CellWidth(game.stones, game.width, black, white, z, y);
    }
  }

  lemma RowAligned(game: Game, black: string, white: string, i: nat)
    requires 1 <= i <= game.width <= 25 && |black| == 1 && |white| == 1
    ensures var lines := BoardLines(game, black, white);
      |lines| == game.width + 2 && Aligned(lines[i], Row(game, black, white, game.width - i))
  {
    var size := game.width;
    var cells := Row(game, black, white, size - i);
    BoardRowLine(game, black, white, i);
    RowWidths(game, black, white, size - i);
    RowAlignment(size - i + 1, cells);
  }

  /** On a board without stones a cell shows `,` exactly on the star points and `.` elsewhere. */
  lemma EmptyBoardMarks(size: nat, black: string, white: string, x: int, y: int)
    ensures CellText([], size, black, white, x, y) == (if (x, y) in StarPoints(size) then "," else ".")
  {
  }

  /** `ansi_board`: the same renderer with grey and bright-white escape-coded glyphs. */
  const AnsiBlack: string := "\U{1B}[90mX\U{1B}[0m"
  const AnsiWhite: string := "\U{1B}[1;37mO\U{1B}[0m"

  method RenderAnsiBoard(game: Game) returns (r: Result<string, RenderError>)
    ensures r == BoardText(game, AnsiBlack, AnsiWhite)
  {
    r := RenderBoard(game, AnsiBlack, AnsiWhite);
  }
}
