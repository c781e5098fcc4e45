# go-eval: board prompts, policy records and the quiz, in Dafny

go-eval builds a Go-playing benchmark in two scripts.

- `generate_data.py` has an engine play a random number of moves and renders the position as a text board. It wraps the board in a prompt and records the engine's move policy next to it.
- `quiz.py` shows the recorded prompts one by one, reads a guessed move and scores the guess against the policy.

This project models the deterministic core of both scripts and proves what they promise.

- **Star points** (`Board.StarPoints`): the set `star_points` builds, with the centre `(size + 1) / 2` kept as the true (real-valued) division Python performs. An integer meets it only on odd boards.
  - The code puts the centre one past the middle of the board. On 19x19 the star coordinates are {3, 10, 15}, so the set is not mirror-symmetric, and `Board.StarPointsOf19` states which points are and are not in it.
- **The renderer** (`ascii_board`), in two forms:
  - `Board.RenderBoard` follows the code step by step. It fills a grid of `,`/`.` marks, overwrites it stone by stone (Python's negative indexing included), then prints the guide, the rows from the top down and the guide again.
  - `Board.BoardText` is a value-level description of the same result, and the method is proved equal to it.
  - The failures are modelled as errors: the size assertion of a non-square board, and the IndexError of a stone outside the grid (the first such stone).
  - `ansi_board` is the same renderer with escape-coded glyphs.
- **Prompts**: the fixed texts and `TURN_STRINGS` around the board. A player to move other than "B" or "W" is the KeyError of the turn lookup.
- **The policy record**:
  - The dict comprehension over the engine's ranking is modelled as an insertion-ordered dictionary (`PolicyDict.Policy`). This matters because the quiz's `max` returns the first maximal entry.
  - The engine's ranking is an input sequence of (probability, move) pairs.
  - `parse_args` validates the argument vector, with `int()` left as a function parameter.
- **The quiz**:
  - `score_p` is over the reals.
  - `attempt_problem` is a decision function (`Quiz.AttemptProblem`). Its outcomes are a missing prompt style, the bare `-1` of an invalid guess, or the scored pair with the report that is printed.
  - `main`'s count resolution and its accumulation loop are methods (`Quiz.ResolveCount`, `Quiz.RunQuiz`). The shuffled example list and the typed lines are inputs.
  - An invalid guess makes `main`'s two-value unpacking raise, and a prompt style the record lacks raises KeyError. Both end the quiz at that problem (`Quiz.Tally`).

The modules are:

| module | file | contents |
|---|---|---|
| `Wrappers` | `wrappers.dfy` | `Option` and `Result` |
| `Text` | `text.dfy` | `join`, `str`, `rjust`, `strip`, `upper` |
| `Board` | `board.dfy` | star points, guide, renderer |
| `Prompts` | `prompts.dfy` | the ascii and ansi prompts |
| `PolicyDict` | `policy.dfy` | ordered dict |
| `Generator` | `generator.dfy` | policy filter, example record, `parse_args` |
| `Quiz` | `quiz.dfy` | everything from `quiz.py` |

## Model

| member | source | states |
|---|---|---|
| Board.CentreHit | generate_data.py:67 | an integer equals the real `(size + 1) / 2` exactly when the size is odd and the integer is `(size + 1) div 2` |
| Board.OnStarLine | generate_data.py:66-67 | an integer coordinate is in the set `s` exactly when it is one of the outer lines `d - 1`, `size - d` or, on odd boards, the centre |
| Board.StarPoints | generate_data.py:64-68 | definition: the pairs of `range(size)` whose set of coordinates is a subset of `{d - 1, size - d, (size + 1) / 2}`, the centre a real number as Python's true division makes it |
| Board.StarPointsByCoords | generate_data.py:64-68 | a pair is a star point exactly when it is on the board and both coordinates are star coordinates |
| Board.StarPointsOf19 | generate_data.py:66-68 | on 19x19 the star coordinates are {3, 10, 15}: (3,3), (15,3) and (10,10) are star points, (8,8) and (9,9) are not, so the set has no mirror symmetry |
| Board.StarPointsEven | generate_data.py:67 | on an even board only the two outer lines remain |
| Board.ColumnLettersSkipI | generate_data.py:75 | column letters are capitals, never `I`, and strictly increasing, so distinct |
| Board.LabelsLayout | generate_data.py:75 | the label string has 52 characters, column letter k at index 3 + 2k, blanks at the first three and every even index, and no newline |
| Board.Guide | generate_data.py:75 | definition: the label string cut at `size * 2 + 2`, stopping at its end as a Python slice does |
| Board.GuideLayout | generate_data.py:75 | up to size 25 the guide has 2·size + 2 characters, letter k at 3 + 2k and blanks at every other position, so exactly `size` letters |
| Board.FirstOffBoard | generate_data.py:79-82 | the index found is of a stone outside [-size, size) in some coordinate with all earlier stones inside, and none is found only when every stone indexes the grid |
| Board.FirstOffBoardAt | generate_data.py:79-82 | the first stone that does not index the grid is the one rendering stops at |
| Board.LastStoneAt | generate_data.py:79-82 | the stone found for a cell is written there and no later stone is, and none is found only when no stone is written there |
| Board.CellText | generate_data.py:77-82 | definition: the cell after the overlay: the glyph of the last stone written to it, after negative indices wrap, else its `,` or `.` mark |
| Board.AddStone | generate_data.py:79-82 | laying one more stone sets the cell it lands on, after negative indices wrap, to its glyph and leaves every other cell unchanged |
| Board.EmptyBoardMarks | generate_data.py:77 | without stones a cell shows `,` exactly on star points and `.` elsewhere |
| Board.GridInit | generate_data.py:77 | the initial grid of marks is the grid of cell texts with no stones laid |
| Board.GridStep | generate_data.py:80-82 | writing one stone's glyph into the grid keeps it equal to the cell texts of the stones laid so far |
| Board.FillGrid | generate_data.py:77-82 | the overlay loop stops at exactly the first stone that does not index the grid, and otherwise ends with every cell showing its last stone's glyph or its mark |
| Board.RowsPrintedStep | generate_data.py:85-91 | appending the line of the next row down keeps the printed lines equal to the guide followed by the rows from the top down |
| Board.PrintRows | generate_data.py:84-91 | the printing loop produces the guide and then one line per row, from the top row (label size) down to row 0 (label 1) |
| Board.LinesOfGrid | generate_data.py:84-92 | once the grid is complete, the printed lines plus the closing guide are the board's lines |
| Board.Labelled | generate_data.py:86-90 | definition: the f-string line: the label right-justified to two places, a blank, the cells one blank apart, a blank, the label |
| Board.RowLine | generate_data.py:86-90 | definition: that line with the label `str(n)` |
| Board.BoardLines | generate_data.py:84-92 | definition: the guide, row `size - 1 - i` labelled `size - i` for i from 0, and the guide again |
| Board.BoardText | generate_data.py:71-93 | definition: the size error for a non-square board, the IndexError of the first stone off the grid, else the lines joined by newlines |
| Board.RenderBoard | generate_data.py:71-93 | the imperative renderer returns exactly the value-level board text, errors included |
| Board.BoardTextOutcome | generate_data.py:72-93 | rendering fails with the size error exactly when width ≠ height; it fails at stone i exactly when i is the first stone off the grid; it succeeds exactly when the board is square and every stone indexes the grid, and then gives the lines joined by newlines |
| Board.BoardShape | generate_data.py:84-93 | a board prints as size + 2 lines whose first and last lines are the guide |
| Board.BoardRowLine | generate_data.py:85-91 | line i (1 ≤ i ≤ size) is the row `size - i` with label `size - i + 1`, so rows print from the highest label down to 1 |
| Board.RowLineFree | generate_data.py:86-90 | a row line holds no newline when no cell does |
| Board.BoardLinesOneLine | generate_data.py:84-92 | with newline-free glyphs no line of the board holds a newline |
| Board.BoardLineCount | generate_data.py:93 | splitting a rendered board on newlines gives back its size + 2 lines |
| Board.LineLayout | generate_data.py:90 | in `f"{left} {row} {right}"` with a two-character left label, the blank is at index 2 and the row's character m at index 3 + m |
| Board.LabelledAlignment | generate_data.py:87-90 | with a label of one or two characters and one-character cells, the line is 2·cells + 3 + label long, starts with the right-justified label and a blank, and has cell x at index 3 + 2x |
| Board.RowAlignment | generate_data.py:87-90 | the same for `str(n)` with 1 ≤ n ≤ 99, which also gives the alignment in the form of the `Aligned` predicate: each cell's character at index 3 + 2x |
| Board.CellWidth | generate_data.py:77-82 | with one-character glyphs every cell is one character |
| Board.RowWidths | generate_data.py:77-82 | with one-character glyphs every cell of a row is one character |
| Board.RowAligned | generate_data.py:84-91 | on boards up to 25 with one-character glyphs, line i of the board holds cell x of its row at index 3 + 2x |
| Board.BoardAlignment | generate_data.py:75-91 | on boards up to 25 with one-character glyphs, guide letter x and cell x of every row share the column 3 + 2x |
| Board.RenderAnsiBoard | generate_data.py:96-99 | `ansi_board` is the renderer with the grey-X and bright-white-O escape sequences as glyphs |
| Text.Join | generate_data.py:87 | definition: `sep.join(parts)`, the parts with one separator between neighbours |
| Text.JoinAppend | generate_data.py:93 | joining a concatenation of lists joins the two joins with one separator |
| Text.Join4 | generate_data.py:107 | joining four texts puts one separator between each neighbouring pair |
| Text.JoinSingles | generate_data.py:87 | joining one-character cells with a one-character separator puts cell k at index 2k and the separator at every odd index, in 2·n − 1 characters |
| Text.JoinFree | generate_data.py:87 | a join holds a character only if a part or the separator does |
| Text.SplitJoin | generate_data.py:93 | text joined with a character that no part holds splits back into exactly the parts |
| Text.NatToString | generate_data.py:88-89 | `str(n)` is a non-empty string of digits without a leading zero, one digit below 10 and two from 10 to 99 |
| Text.DecimalValueOfString | generate_data.py:88-89 | the digits `str(n)` produces denote n |
| Text.RJust | generate_data.py:88 | definition: `s.rjust(width, fill)`, fill characters before `s` up to `width` |
| Text.RJustShape | generate_data.py:88 | `rjust(width, fill)` is `width` characters, or the string itself when that is longer: fill characters, then the string |
| Text.Strip | quiz.py:23 | definition: `strip()`: leading, then trailing, characters of Python's whitespace set removed |
| Text.StripSlice | quiz.py:23 | `strip()` returns the slice between a whitespace prefix and a whitespace suffix whose ends, when it is non-empty, are not whitespace |
| Text.StripUnique | quiz.py:23 | any slice with those properties is the stripped string |
| Text.StripIdempotent | quiz.py:23 | stripping twice is stripping once |
| Text.UpperCases | quiz.py:23 | after `upper()` no lower-case ASCII letter remains; every character is kept or is a lower-case letter moved 32 code points down to its capital; upper-casing twice is upper-casing once |
| PolicyDict.Insert | generate_data.py:145-149 | `d[k] = v` keeps keys distinct, adds k, makes `d[k]` equal v and leaves every other key's value unchanged; an existing key keeps its position, and a new key goes at the end |
| PolicyDict.Overwrite | generate_data.py:145-149 | overwriting the value of an existing key keeps every key in place |
| PolicyDict.Append | generate_data.py:145-149 | appending a new key adds it and changes no other value |
| Generator.FilterPolicy | generate_data.py:145-149 | the filtered policy has distinct moves |
| Generator.FilterNonNegative | generate_data.py:148 | every value of the filtered policy is ≥ 0 |
| Generator.FilterKeys | generate_data.py:145-149 | a move is a key exactly when some ranking entry for it has probability ≥ 0 |
| Generator.FilterLastWins | generate_data.py:145-149 | a repeated move takes the probability of its last kept entry |
| Generator.FilterOrder | generate_data.py:145-149 | the policy lists its moves in the order in which they first pass the filter |
| Generator.GenerateExample | generate_data.py:145-156 | definition: the record of the two prompts, under "ascii" and "ansi", and the filtered policy; a prompt error is passed on |
| Generator.GenerateExampleShape | generate_data.py:150-156 | a record exists exactly when the prompt can be built, and otherwise fails with the prompt's own error. It holds exactly the "ascii" and "ansi" prompts and the filtered policy, whose entries are distinct and non-negative and whose moves are those the ranking keeps |
| Generator.ParseArgs | generate_data.py:159-165 | argument parsing succeeds exactly with ≥ 3 entries, an integer count and a `.jsonl` name, and then gives (int(argv[1]), argv[2]). A short argv or a non-integer count is the ValueError; a name without the `.jsonl` suffix is the AssertionError |
| Prompts.TurnStrings | generate_data.py:25 | definition: the whose-turn line for "B" and for "W", and no other key |
| Prompts.PromptWith | generate_data.py:102-115 | definition: render the board with the given glyphs, look up the turn line, then join top text, board, turn line and bottom text with newlines |
| Prompts.AsciiPrompt | generate_data.py:102-107 | definition: the prompt with glyphs X and O |
| Prompts.AnsiPrompt | generate_data.py:110-115 | definition: the prompt with the escape-coded glyphs of `ansi_board` |
| Prompts.PromptLayout | generate_data.py:102-115 | a prompt exists exactly when the board renders and the player to move is "B" or "W". A render error is passed on; a board that renders with any other player to move is the TURN_STRINGS KeyError naming that player; and the prompt is top text, board, turn line and bottom text, one newline apart |
| Prompts.TurnStringsOneLine | generate_data.py:25 | neither turn line holds a newline |
| Prompts.TopPromptOneLine | generate_data.py:103 | the top text is one line |
| Prompts.BottomPromptLines | generate_data.py:106 | the bottom text is two lines, each without a newline of its own |
| Prompts.AssembledLines | generate_data.py:107 | the four joined parts split back into the top line, the board's lines, the turn line and the two instruction lines |
| Prompts.PromptLines | generate_data.py:102-107 | split on newlines, a prompt is the top line, the board's size + 2 lines, the turn line and two instruction lines: size + 6 lines |
| Prompts.AsciiAnsiAgree | generate_data.py:96-115 | the ascii and ansi prompts fail together and for the same reason, and are the same text on a board without stones |
| Quiz.ScoreP | quiz.py:16-17 | definition: `1 - (1 - p) ** 2` over the reals |
| Quiz.ScorePFactored | quiz.py:16-17 | `score_p(p) = p·(2 − p)`, with `score_p(0) = 0` and `score_p(1) = 1` |
| Quiz.ScorePDifference | quiz.py:16-17 | `score_p(q) − score_p(p) = (q − p)(2 − p − q)` |
| Quiz.ScorePMonotone | quiz.py:16-17 | up to 1 a larger probability never scores less |
| Quiz.ScorePStrictlyIncreasing | quiz.py:16-17 | up to 1, and so on [0, 1], `score_p` is strictly increasing |
| Quiz.ScorePRange | quiz.py:16-17 | `score_p` maps [0, 1] into [0, 1] |
| Quiz.ScorePInjective | quiz.py:16-17 | up to 1 two probabilities score the same exactly when they are equal |
| Quiz.ScorePConcave | quiz.py:16-17 | the curve is strictly concave: the score of the midpoint of two different probabilities exceeds the mean of their scores |
| Quiz.Normalise | quiz.py:23 | definition: `strip()` then `upper()` |
| Quiz.StripPadding | quiz.py:23 | whitespace added on either side does not change `strip()` |
| Quiz.NormaliseIgnoresPadding | quiz.py:23 | whitespace typed around a move does not change the normalised guess |
| Quiz.UpperKeepsSpace | quiz.py:23 | upper-casing a character keeps it whitespace or not |
| Quiz.NormaliseIdempotent | quiz.py:23 | normalising a normalised guess changes nothing |
| Quiz.NormaliseClean | quiz.py:23-24 | a guess without surrounding whitespace or lower-case letters is looked up as typed |
| Quiz.BestIndex | quiz.py:28 | `max` over the items picks the first entry of largest probability |
| Quiz.AttemptProblem | quiz.py:20-36 | definition: KeyError for a missing prompt style, `-1` for a guess not in the policy, else the score, the best score and the report |
| Quiz.AttemptInvalid | quiz.py:22-26 | the attempt is the KeyError of the prompt lookup exactly when the style is missing, and is the invalid `-1` exactly when the style exists but the normalised guess is not a move of the policy |
| Quiz.AttemptScores | quiz.py:27-29 | a valid guess scores `score_p` of its probability, the best score is `score_p` of the largest probability, and with a well-formed policy 0 ≤ score ≤ best ≤ 1 |
| Quiz.PerfectIffMaximal | quiz.py:28-35 | "Perfect" is reported exactly when the guessed move's probability is the maximum, and otherwise the first maximal move is named |
| Quiz.GuessingBestIsPerfect | quiz.py:27-31 | guessing any move of largest probability, in any letter case, is Perfect with score equal to best score |
| Quiz.TwoMovesFacts | quiz.py:22-28 | the two-move policy has keys D4 and Q16 with 0.8 and 0.2, and D4 is its best entry |
| Quiz.TwoMovesBest | quiz.py:20-36 | with D4 at 0.8 and Q16 at 0.2, a guess reading D4 scores (0.96, 0.96) and is Perfect |
| Quiz.TwoMovesSecond | quiz.py:20-36 | a guess reading Q16 scores (0.36, 0.96) and the report names D4 |
| Quiz.TwoMovesInvalid | quiz.py:24-26 | a guess reading Z1 is invalid |
| Quiz.GtpPromptMissing | quiz.py:22 | a generated record has no "gtp" prompt, so the `gtp` style always raises KeyError |
| Quiz.SliceLength | quiz.py:63 | `examples[:count]` has at most as many items as the list, and keeps index i exactly when i is below `count`, or, for a negative count, below `len + count` |
| Quiz.Attempts | quiz.py:63-64 | definition: the attempts at the presented problems, problem k answered with typed line k |
| Quiz.Tally | quiz.py:61-66 | definition: totals from 0, adding each scored attempt, stopping at the first attempt that raises |
| Quiz.TallyOutcome | quiz.py:61-66 | the quiz completes exactly when every attempt is scored. Otherwise it stops at the first attempt that is not, with KeyError for a missing prompt and the unpacking error for an invalid guess |
| Quiz.TallySums | quiz.py:61-66 | a completed quiz's `score` and `max_score` are the sums of the per-problem scores and best scores, starting from 0 |
| Quiz.TallyBounded | quiz.py:61-66 | with well-formed problems a completed quiz has 0 ≤ score ≤ max_score ≤ number of problems |
| Quiz.TallyCrashStays | quiz.py:63-64 | once a prefix of the attempts crashes, the quiz crashes there |
| Quiz.TallyStep | quiz.py:64-66 | one more scored attempt adds its score and best score to the totals |
| Quiz.TallyStops | quiz.py:64 | an attempt that is not scored ends the quiz at that problem |
| Quiz.ResolveCount | quiz.py:52-59 | None or 0 means all examples; a count above the number available is clamped to it with the warning; any other count, negative ones included, is kept |
| Quiz.RunQuiz | quiz.py:52-66 | `main` resolves the count as above and presents every example for None or 0, `min(count, len)` for a positive count and `max(0, len + count)` for a negative one. It ends with the totals, or the crash, that the attempts at that prefix determine |

## Left out

- Downloading the engine's network weights, finding the model file and building the KaTrain GUI and engine (`download_model`, `get_model`, `setup`): network, filesystem and foreign code.
- The self-play walk of `generate_example`: `random.randint`, `generate_ai_move` and the `time.sleep` poll for the engine's asynchronous policy are randomness, a foreign engine and concurrency. The ranking the engine publishes, and the position it reaches, are inputs.
- `move.gtp()`: a foreign call. Moves are strings.
- `main` of `generate_data.py`: file append, JSON serialisation and progress bars.
  - On a usage error it prints the usage line and carries on with `dest_filename` unbound. That NameError is not modelled; only `parse_args`' outcome is.
- `int()` on an argument string is the function parameter `toInt` of `Generator.ParseArgs`. Python's integer syntax is not modelled.
- In `quiz.py`:
  - JSON loading, `print`, `input()` and the `.3f` formatting are I/O. The typed lines are the `guesses` input, and end of input on `input()` is not modelled.
  - The printed report is kept as a value (`Quiz.Report`).
  - `random.shuffle` is randomness: `Quiz.RunQuiz` takes the already shuffled list.
  - argparse is an external library. The parsed count and prompt style are inputs, and argparse's own rejection of a style outside ascii/ansi/gtp is not modelled.
- `parse_args` of `quiz.py` is never called (`main` uses argparse), so it is not modelled.
- Floating point: probabilities and scores are reals.
  - "Perfect" is the exact equality of two floats in the code. `Quiz.PerfectIffMaximal` relies on the real-number fact that `score_p` is injective on [0, 1], which float rounding could break.
  - The float true division in `star_points` is exact in the model, which is faithful because (size + 1) / 2 is exactly representable.
- The `lru_cache` on `star_points`: memoisation with no observable effect.
- Text.Upper: upper-cases ASCII letters only, because Python's full Unicode case mapping (which can also change the length) is not modelled. Python also maps some non-ASCII letters to ASCII capitals, such as 'ſ' (U+017F) to 'S' and 'ı' (U+0131) to 'I'. A typed "ſ16" is therefore the move S16 for `quiz.py` but an invalid guess in the model.
