/** The prompt builders of generate_data.py: fixed text around the rendered board and a whose-turn line. */
module Prompts {
  import opened Wrappers
  import opened Text
  import opened Board

  /** `TURN_STRINGS`: the whose-turn line for each player to move. */
  const TurnStrings: map<string, string> := map["B" := "Black (X) to play.", "W" := "White (O) to play."]

  // The fixed texts are written in short pieces so that facts about their characters stay cheap to prove.
  const TopPrompt: string := "This is a position from " + "a game of Go. X represents " + "a black stone and O " + "represents a white stone."
  const BottomFirst: string := "Please try to find " + "the best move. Enter the " + "coordinates in GTP format " + "(letter followed by number)."
  const BottomSecond: string := "Your move:"
  /** The closing instruction, two lines. */
  const BottomPrompt: string := BottomFirst + "\n" + BottomSecond

  /** Why a prompt cannot be built: the board renderer raised, or `TURN_STRINGS` has no entry for the player to move. */
  datatype PromptError = RenderFailed(cause: RenderError) | UnknownPlayer(player: string)

  /** The prompt for a board drawn with the given glyphs: the board is rendered first, then the turn line is looked up. */
  function PromptWith(game: Game, black: string, white: string): Result<string, PromptError>
  {
    match BoardText(game, black, white)
    case Err(e) => Err(RenderFailed(e))
    case Ok(board) =>
      if game.nextPlayer !in TurnStrings then Err(UnknownPlayer(game.nextPlayer))
      else Ok(Join("\n", [TopPrompt, board, TurnStrings[game.nextPlayer], BottomPrompt]))
  }

  /** `ascii_prompt`: the board with the renderer's default glyphs X and O. */
  function AsciiPrompt(game: Game): Result<string, PromptError>
  {
    PromptWith(game, "X", "O")
  }

  /** `ansi_prompt`: the board of `ansi_board`. */
  function AnsiPrompt(game: Game): Result<string, PromptError>
  {
    PromptWith(game, AnsiBlack, AnsiWhite)
  }

  /** A prompt exists exactly when the board renders and the player to move is "B" or "W";
      it is the top text, the board, the turn line and the bottom text, one newline apart. */
  lemma PromptLayout(game: Game, black: string, white: string)
    ensures PromptWith(game, black, white).Ok? <==>
      BoardText(game, black, white).Ok? && game.nextPlayer in {"B", "W"}
    ensures BoardText(game, black, white).Err? ==>
      PromptWith(game, black, white) == Err(RenderFailed(BoardText(game, black, white).error))
    ensures BoardText(game, black, white).Ok? && game.nextPlayer !in TurnStrings ==>
      PromptWith(game, black, white) == Err(UnknownPlayer(game.nextPlayer))
    ensures PromptWith(game, black, white).Ok? ==>
      PromptWith(game, black, white).value
        == TopPrompt + "\n" + BoardText(game, black, white).value + "\n" + TurnStrings[game.nextPlayer] + "\n" + BottomPrompt
  {
    if PromptWith(game, black, white).Ok? {
      Join4("\n", TopPrompt, BoardText(game, black, white).value, TurnStrings[game.nextPlayer], BottomPrompt);
    }
  }

  /** None of the fixed texts holds a line break. */
  lemma TopPromptOneLine()
    ensures '\n' !in TopPrompt
  {
  }

  lemma BottomPromptLines()
    ensures '\n' !in BottomFirst && '\n' !in BottomSecond
  {
    BottomFirstOneLine();
  }

  lemma BottomFirstOneLine()
    ensures '\n' !in BottomFirst
  {
  }

  lemma TurnStringsOneLine(p: string)
    requires p in TurnStrings
    ensures '\n' !in TurnStrings[p]
  {
  }

  /** Four texts joined by newlines, the second itself joined lines and the last two lines, split back into their lines. */
  lemma {:induction false} AssembledLines(top: string, board: seq<string>, turn: string, first: string, second: string)
    requires |board| >= 1
    requires '\n' !in top && '\n' !in turn && '\n' !in first && '\n' !in second
    requires forall i :: 0 <= i < |board| ==> '\n' !in board[i]
    ensures Split(Join("\n", [top, Join("\n", board), turn, first + "\n" + second]), '\n')
      == [top] + board + [turn, first, second]
  {
    var tail := [turn, first, second];
    var all := [top] + board + tail;
    Join4("\n", top, Join("\n", board), turn, first + "\n" + second);
    JoinAppend("\n", [top], board);
    JoinAppend("\n", [top] + board, tail);
    Join3("\n", turn, first, second);
    assert Join("\n", all) == Join("\n", [top, Join("\n", board), turn, first + "\n" + second]);
    forall i | 0 <= i < |all| ensures '\n' !in all[i] {
      if 1 <= i <= |board| { assert all[i] == board[i - 1]; }
    }
    SplitJoin(all, '\n');
  }

  /** Split on newlines, a prompt is the top line, the board's size + 2 lines, the turn line and the two instruction lines. */
  lemma PromptLines(game: Game, black: string, white: string)
    requires PromptWith(game, black, white).Ok?
    requires '\n' !in black && '\n' !in white
    ensures game.nextPlayer in TurnStrings
    ensures Split(PromptWith(game, black, white).value, '\n')
      == [TopPrompt] + BoardLines(game, black, white) + [TurnStrings[game.nextPlayer], BottomFirst, BottomSecond]
    ensures |Split(PromptWith(game, black, white).value, '\n')| == game.width + 6
  {
    var board := BoardLines(game, black, white);
    BoardLinesOneLine(game, black, white);
    TopPromptOneLine();
    BottomPromptLines();
    TurnStringsOneLine(game.nextPlayer);
    assert BoardText(game, black, white).value == Join("\n", board);
    AssembledLines(TopPrompt, board, TurnStrings[game.nextPlayer], BottomFirst, BottomSecond);
  }

  /** The ascii and ansi prompts fail together and for the same reason; without stones the two are the same text. */
  lemma AsciiAnsiAgree(game: Game)
    ensures AsciiPrompt(game).Ok? <==> AnsiPrompt(game).Ok?
    ensures AsciiPrompt(game).Err? ==> AsciiPrompt(game) == AnsiPrompt(game)
    ensures game.stones == [] ==> AsciiPrompt(game) == AnsiPrompt(game)
  {
    if game.stones == [] {
      forall y ensures Row(game, "X", "O", y) == Row(game, AnsiBlack, AnsiWhite, y) {
      }
      assert BoardLines(game, "X", "O") == BoardLines(game, AnsiBlack, AnsiWhite);
    }
  }
}
