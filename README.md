# Four Kotlin exercises, modelled and proved in Dafny

This project models the core of four small Kotlin programs and proves what they promise.

- **Seam carving** (`SeamCarving.kt`) shrinks an image by removing cheapest connected seams.
  - Each pixel has a dual-gradient energy, with coordinates clamped one pixel in from the border.
  - A top-to-bottom dynamic-programming pass adds to each cell the cheapest of its three upper neighbours. Ties go left, then centre, then right.
  - The seam starts at the first minimum of the last row and follows the parent pointers upwards.
  - `main` removes `width` columns, turns the image counter-clockwise, removes `height` columns, and turns it back.
  - Modules:
    - `SeamSearch` is the search over any grid of real costs.
    - `SeamCarving` holds the pixels, the image operations, and the in-place loops over `array2`.
- **Connect Four** (`ConnectFour.kt`) is modelled as the class `ConnectFour.Game`, which has the fields of the Kotlin class.
  - The board is an `array2<char>` with a padding row 0 and a padding column 0.
  - Methods: `clearBoard`, `getColumnTopPosition`, the move part of `handleTurn`, `checkForWinInDirection` and `checkWinCondition`, the size rules of `defineBoard`, and the game loop of `startGame`.
  - `ConnectFourRules` states the same rules as functions of the board value.
  - `ConnectFourWins` proves that the six scans find a winner exactly when the board holds four equal pieces in a row, in any of the four directions.
- **Smart calculator** (`SmartCalculator.kt`):
  - `CalculatorSyntax` covers the tokens, the operator mapping (runs of `-` of odd and even length included) and precedence.
  - `Conversion` is the shunting-yard conversion, as a fold over the tokens.
  - `RpnEvaluation` is the RPN stack machine and its meaning on expression trees.
  - `SmartCalculator.Calculator` holds the `variables` map and the two loops as methods, each proved to compute those functions.
- **Matrix index permutations** (`MatrixProcessor.kt`), in module `MatrixProcessor`, generic over the element type:
  - `zeroMatrix`;
  - the four transpositions;
  - `constructMatrix`, the minor without row 0 and one column.

`Grids` is shared: `Cells(a)` reads a two-dimensional array as a sequence of sequences.

## Model

| member | source | states |
|---|---|---|
| SeamCarving.PixelDistance | SeamCarving.kt:15 | the summed squared channel difference is zero exactly when the two colours are equal |
| SeamCarving.Gradient | SeamCarving.kt:12-16 | the gradient compares the two neighbours along the chosen axis and is zero exactly when they are equal |
| SeamCarving.Clamp | SeamCarving.kt:22 | `coerceIn` stays within its bounds and leaves a value already inside unchanged |
| SeamCarving.EnergyZeroIff | SeamCarving.kt:22 | a pixel's squared energy is zero exactly when both pairs sampled at the clamped coordinates agree |
| SeamCarving.UniformHasZeroEnergy | SeamCarving.kt:18-24 | a one-colour image has zero energy everywhere, the border included |
| SeamCarving.EnergyGrid | SeamCarving.kt:18-24 | the energy grid has the image's shape |
| SeamCarving.Energies | SeamCarving.kt:18-24 | the loop fills a fresh grid of the image's shape with root(squared energy) and parent 0 at every cell |
| SeamCarving.FillColumn | SeamCarving.kt:21-22 | one pass of the inner loop gives every cell of column x its energy and parent 0, and leaves the other columns alone |
| SeamCarving.EnergyAt | SeamCarving.kt:22 | the clamped gradient sum computed for one pixel is its squared energy |
| SeamSearch.Parent | SeamCarving.kt:59-64 | the chosen parent is a column of the grid adjacent to x (at most one column away) |
| SeamSearch.ParentPolicy | SeamCarving.kt:59-64 | the parent has the least cumulative cost of the three candidates, and ties go left, then centre, then right |
| SeamSearch.FirstMin | SeamCarving.kt:67 | `minByOrNull` returns an index of a least entry, and every earlier entry is strictly larger |
| SeamSearch.FirstMinUnique | SeamCarving.kt:67 | the first minimum is the only index with those two properties |
| SeamSearch.LastRow | SeamCarving.kt:67 | the row that the start column is chosen from holds the cumulative costs of the last image row |
| SeamSearch.Trace | SeamCarving.kt:68-76 | following parents from (x, y) visits one in-grid column per row 0..y |
| SeamSearch.Seam | SeamCarving.kt:67-76 | the removed seam has one in-grid column per image row |
| SeamSearch.PathCostPrefix | SeamCarving.kt:57-65 | a path's cost up to row y depends only on its first y + 1 columns |
| SeamSearch.TraceLinks | SeamCarving.kt:75 | the traced path ends at x, and each column is the parent of the one below it |
| SeamSearch.TraceCost | SeamCarving.kt:57-76 | the traced path costs exactly the cumulative cost the pass stored at its lower end |
| SeamSearch.CumulativeIsLowerBound | SeamCarving.kt:57-65 | no connected path reaching a cell costs less than the cell's cumulative cost |
| SeamSearch.SeamIsConnected | SeamCarving.kt:67-76 | the removed seam is connected: consecutive rows differ by at most one column |
| SeamSearch.SeamStart | SeamCarving.kt:67 | the seam ends at the first least entry of the last row |
| SeamSearch.SeamIsOptimal | SeamCarving.kt:53-78 | no connected top-to-bottom seam is cheaper than the one removed |
| SeamCarving.RemoveSeam | SeamCarving.kt:68-74 | removing a seam makes the image exactly one column narrower |
| SeamCarving.RemoveSeamRows | SeamCarving.kt:69-74 | each row loses exactly its seam pixel, and the others keep their order |
| SeamCarving.Carved | SeamCarving.kt:53-78 | one carve makes the image one column narrower and keeps its height |
| SeamCarving.CarvedTimes | SeamCarving.kt:42-48 | n carves remove n columns |
| SeamCarving.RotatedCW | SeamCarving.kt:29 | the clockwise turn swaps the width and the height |
| SeamCarving.RotatedCCW | SeamCarving.kt:30 | the counter-clockwise turn swaps the width and the height |
| SeamCarving.RotateCCWThenCW | SeamCarving.kt:45-50 | turning back clockwise, after `main`'s counter-clockwise turn, restores the orientation |
| SeamCarving.RotateCWThenCCW | SeamCarving.kt:26-32 | the two turns are mutually inverse in the other order too |
| SeamCarving.Reduced | SeamCarving.kt:42-50 | the reduction removes `width` columns and `height` rows (none for a count of zero or less) |
| SeamCarving.ReduceNothing | SeamCarving.kt:42-50 | asking for no reduction gives back the image unchanged, even though it is turned twice |
| SeamCarving.Rotate90 | SeamCarving.kt:26-32 | the loop builds a fresh image with the dimensions swapped that equals the turned image value |
| SeamCarving.Carve | SeamCarving.kt:53-78 | `carve` returns a fresh image equal to the image without the cheapest seam of its energy grid |
| SeamCarving.Reduce | SeamCarving.kt:42-50 | the loops of `main` produce exactly the reduced image |
| SeamCarving.CarveRepeatedly | SeamCarving.kt:42-43 | `for (i in 1..n)` carves n times, and no time at all when n ≤ 0 |
| SeamCarving.CarveNext | SeamCarving.kt:43 | one carve leaves one carve fewer to reach the same final image |
| SeamCarving.ReducedInStages | SeamCarving.kt:42-50 | the two carving loops and the two turns, one after the other, give the reduced image |
| SeamCarving.CarveWith | SeamCarving.kt:57-77 | after `energies`, the pass and the copy remove the optimal seam of the energy grid |
| SeamCarving.FindSeam | SeamCarving.kt:57-67 | the pass stores each cell's cumulative cost and parent; the start column is where the seam ends, and the stored parents link the seam |
| SeamCarving.SeamFromTable | SeamCarving.kt:67-76 | from a filled table, following stored parents from the first minimum gives the search's seam |
| SeamCarving.CopyWithoutSeam | SeamCarving.kt:68-76 | the bottom-up copy, following parents, leaves out exactly the seam pixel of every row |
| SeamCarving.StartColumn | SeamCarving.kt:67 | the start column is the first least entry of the last row |
| SeamCarving.DynamicPass | SeamCarving.kt:57-65 | row 0 keeps its costs; every later cell ends with its cumulative cost and its policy parent |
| SeamCarving.FillRow | SeamCarving.kt:58-65 | one row is settled and every other row is untouched |
| SeamCarving.Settle | SeamCarving.kt:59-64 | the three-way comparison gives the cell its cumulative cost and policy parent, and changes nothing else |
| SeamCarving.RowAbove | SeamCarving.kt:59-64 | the costs the comparison reads are the cumulative costs of the three candidates |
| ConnectFourRules.TopFrom | ConnectFour.kt:118-125 | the scan from row y stops above the first occupied cell, with only empty cells between |
| ConnectFourRules.ColumnTop | ConnectFour.kt:118-125 | the top position is the lowest empty cell above the first occupied one, or the bottom row for an empty column |
| ConnectFourRules.ColumnFullIff | ConnectFour.kt:138 | a column is full (top position 0) exactly when its top playable cell is occupied |
| ConnectFourRules.EmptyColumnTop | ConnectFour.kt:124 | a piece dropped into an empty column lands on the bottom row |
| ConnectFourRules.Place | ConnectFour.kt:139 | a move writes one cell and leaves every other cell as it was |
| ConnectFourRules.DropLands | ConnectFour.kt:137-139 | the piece lands on an empty cell with an occupied cell or the floor below, and the column's top moves up by one |
| ConnectFourRules.TopDeterminedByColumn | ConnectFour.kt:118-125 | after the drop, the column scan stops just above the new piece |
| ConnectFourRules.TopSameColumn | ConnectFour.kt:118-125 | the column scan reads only its own column |
| ConnectFourRules.CellInside | ConnectFour.kt:166-184 | every cell a scan reads past its guard is inside the padded board |
| ConnectFourRules.Reach | ConnectFour.kt:165-184 | a diagonal scan reads the cells of a line up to the first cell whose guard fails |
| ConnectFourRules.Line | ConnectFour.kt:162-185 | the characters a scan line reads, one per reached cell |
| ConnectFourRules.LineAt | ConnectFour.kt:166-184 | the k-th character of a line is the board cell that the `when` selects for that direction |
| ConnectFourRules.ReachAtLeast | ConnectFour.kt:169-184 | a guarded cell is reached, and so is every cell before it |
| ConnectFourRules.RunLength | ConnectFour.kt:186-190 | the run counter is between 1 and the number of cells read so far |
| ConnectFourRules.RunOfFour | ConnectFour.kt:186-191 | the counter reaches 4 on a piece exactly where four equal non-empty cells end |
| ConnectFourRules.RunAtLeast | ConnectFour.kt:186-190 | the counter is at least n exactly when the n − 1 cells before it are equal to it |
| ConnectFourRules.CounterStep | ConnectFour.kt:186-191 | one update of the counter and the run character keeps them equal to the run ending at the cell just read, and the counter reaching 4 on a piece is the line's first run of four |
| ConnectFourRules.FirstRunFromFinds | ConnectFour.kt:165-198 | the counter finds a winner exactly when four equal pieces end on the line, and the winner owns them |
| ConnectFourRules.LineWinnerIff | ConnectFour.kt:162-198 | a line has a winner exactly when it holds a run of four, and the winner owns it |
| ConnectFourRules.ScanNoneIff | ConnectFour.kt:162-200 | `checkForWinInDirection` returns false exactly when none of its lines holds a run of four |
| ConnectFourRules.ScoreAfter | ConnectFour.kt:191-216 | a win gives 2 points to its owner, a draw 1 to each player; otherwise the scores are unchanged and never decrease |
| ConnectFourRules.Chosen | ConnectFour.kt:76-94 | an accepted size is 6 x 7 for a blank answer, otherwise the rows and columns given; both are always within 5..9 |
| ConnectFourWins.StepAlong | ConnectFour.kt:166-184 | consecutive cells of a scan line are one step apart in the scan's direction |
| ConnectFourWins.StepsAlong | ConnectFour.kt:166-184 | the three cells after a cell are one, two and three steps on |
| ConnectFourWins.LineCells | ConnectFour.kt:165-190 | four consecutive characters of a line are a run of four exactly when the board cells hold four in a row |
| ConnectFourWins.FourFromCells | ConnectFour.kt:186-191 | a run of four that ends on the line is a four-in-a-row on the board, and conversely |
| ConnectFourWins.FourCellsOfLine | ConnectFour.kt:165-184 | four consecutive characters of a line are the four board cells the `when` selects, all inside the padded board |
| ConnectFourWins.PlayableEnds | ConnectFour.kt:169-184 | the first and last of four cells a scan reads past its guards are playable cells, never padding |
| ConnectFourWins.ScanWinIsFour | ConnectFour.kt:159-201 | when a scan declares a winner, the board holds four of the winner's pieces in a row |
| ConnectFourWins.ScanFinds | ConnectFour.kt:159-201 | a scan finds every run of four that lies on one of its lines |
| ConnectFourWins.FoundLine | ConnectFour.kt:162-198 | a successful scan stopped on a line whose winner is the one declared |
| ConnectFourWins.JudgeWinIsFour | ConnectFour.kt:203-209 | soundness: a declared winner owns a four-in-a-row |
| ConnectFourWins.FourIsJudgedWin | ConnectFour.kt:203-209 | completeness: every four-in-a-row, in any of the four directions, is found by one of the six scans |
| ConnectFourWins.HorizontalFourJudged | ConnectFour.kt:204 | a horizontal four-in-a-row is found by the row scan |
| ConnectFourWins.VerticalFourJudged | ConnectFour.kt:205 | a vertical four-in-a-row is found by the column scan |
| ConnectFourWins.LowerDownFourJudged | ConnectFour.kt:206 | a falling diagonal starting in column 1 is found by the first falling-diagonal scan |
| ConnectFourWins.UpperDownFourJudged | ConnectFour.kt:207 | a falling diagonal starting in row 1 is found by the second falling-diagonal scan |
| ConnectFourWins.UpperUpFourJudged | ConnectFour.kt:208 | a rising diagonal starting in column 1 is found by the first rising-diagonal scan |
| ConnectFourWins.LowerUpFourJudged | ConnectFour.kt:209 | a rising diagonal starting in the bottom row is found by the second rising-diagonal scan |
| ConnectFourWins.FoundBy | ConnectFour.kt:159-201 | a four-in-a-row on line r of a scan makes that scan succeed |
| ConnectFourWins.AnyScanWins | ConnectFour.kt:203-209 | a success of any of the six scans makes the verdict a win |
| ConnectFourWins.JudgeWonIff | ConnectFour.kt:203-209 | `checkWinCondition` declares a winner exactly when the board has four equal pieces in a row |
| ConnectFour.Game.constructor | ConnectFour.kt:14-26 | the initial field values: a 6 x 7 size, the first player to move and to start, no board yet, and zero scores |
| ConnectFour.Game.DefineBoard | ConnectFour.kt:70-97 | the prompt repeats until an answer is acceptable; the first acceptable answer sets the size, and the rest are ignored |
| ConnectFour.Game.ClearBoard | ConnectFour.kt:99-108 | a fresh board of (height + 1) x (width + 1) empty cells |
| ConnectFour.Game.GetColumnTopPosition | ConnectFour.kt:118-125 | the loop returns the column's top position |
| ConnectFour.Game.CheckForWinInDirection | ConnectFour.kt:158-201 | the scan returns whether one of its lines holds a run of four; on a win the game stops and the owner gains 2 points |
| ConnectFour.Game.AwardWin | ConnectFour.kt:192-195 | on a win the game stops, and the owner of the run ('o' is the first player) gains 2 points |
| ConnectFour.Game.ScanLine | ConnectFour.kt:162-198 | the inner loop returns the owner of the line's first run of four, if any |
| ConnectFour.Game.CheckWinCondition | ConnectFour.kt:203-217 | the game stops and the scores change exactly as the board's verdict (win, draw or undecided) says |
| ConnectFour.Game.CheckScans | ConnectFour.kt:204-209 | the six scans in order, stopping at the first winner |
| ConnectFour.Game.CheckDraw | ConnectFour.kt:211-216 | a full board is a draw that stops the game and gives each player 1 point |
| ConnectFour.Game.HandleTurn | ConnectFour.kt:127-143 | "end" stops the series; a bad or full column changes nothing; a legal move places the piece on the column top, flips the turn and applies the verdict |
| ConnectFour.Game.PlayMove | ConnectFour.kt:137-142 | the legal move: one cell written, the column top moves up by one, the turn flips, and the verdict is applied |
| ConnectFour.Game.DropDisc | ConnectFour.kt:139 | the piece is written on the column top; the padding stays empty and the column top moves up by one |
| ConnectFour.Game.StartRound | ConnectFour.kt:57-61 | each game starts on an empty board, with the starting player to move |
| ConnectFour.Game.PlayRound | ConnectFour.kt:56-66 | after each game the starting player alternates, the game counter advances, and the scores never decrease |
| ConnectFour.Game.PlayGames | ConnectFour.kt:56-66 | over a series, the first player starts exactly the games with an even index from the series start, the counter counts the games played, and the series stops early only once the counter has passed the number of games to run |
| CalculatorSyntax.ChooseFunction | SmartCalculator.kt:43-47 | an empty line is skipped, a line starting with '/' is a command, and any other line is calculated; each case in both directions |
| CalculatorSyntax.PrecedenceValue | SmartCalculator.kt:152-160 | every operator other than a parenthesis has precedence 1, 2 or 3 |
| CalculatorSyntax.PrecedenceMeaning | SmartCalculator.kt:150 | `precedence` is antisymmetric and means: * and / bind tighter than + and -, and ^ binds tightest |
| CalculatorSyntax.Digits | SmartCalculator.kt:86 | a value prints as a non-empty run of decimal digits |
| CalculatorSyntax.DigitsRoundTrip | SmartCalculator.kt:86 | reading back the printed digits of n gives n |
| CalculatorSyntax.DecimalRoundTrip | SmartCalculator.kt:86 | every printed result is a numeral that `toBigInteger` reads back to the same value |
| CalculatorSyntax.OperatorRunMaps | SmartCalculator.kt:111-120 | every operator run names an operator, so the fallback `throw` of the mapping is unreachable |
| CalculatorSyntax.MinusRunMeaning | SmartCalculator.kt:113 | a run of n minus signs computes a + (-1)^n · b |
| CalculatorSyntax.PlusRunMeaning | SmartCalculator.kt:111 | a run of plus signs of any length is addition |
| CalculatorSyntax.TruncDivSpec | SmartCalculator.kt:68 | BigInteger division truncates toward zero: the remainder is smaller than the divisor and has the dividend's sign |
| Conversion.ReadKinds | SmartCalculator.kt:107-142 | a read token is a number or an operator, and whether the line is an assignment changes only the error |
| Conversion.PopToParen | SmartCalculator.kt:129-130 | the popping loop stops with an empty stack or '(' on top |
| Conversion.StepKeepsNoCloser | SmartCalculator.kt:124-143 | the operator stack never holds ')' |
| Conversion.PushKeepsNoCloser | SmartCalculator.kt:133-136 | pushing an operator keeps ')' off the stack |
| Conversion.PopToParenKeepsNoCloser | SmartCalculator.kt:129-130 | popping to '(' keeps ')' off the stack |
| Conversion.PopFacts | SmartCalculator.kt:130 | a pop moves one operator from the stack to the output, and loses nothing |
| Conversion.PopToParenFacts | SmartCalculator.kt:129-130 | the popping loop moves only non-parenthesis operators to the output, and loses nothing |
| Conversion.CloseParenFacts | SmartCalculator.kt:127-132 | ')' succeeds exactly when a '(' is on the stack; it then discards the pair and loses nothing else |
| Conversion.PushFacts | SmartCalculator.kt:133-136 | pushing an operator moves only operators to the output, and the operator ends on top |
| Conversion.StepSucceeds | SmartCalculator.kt:107-143 | a token step succeeds exactly when the token reads and a ')' finds its '(' |
| Conversion.StepOutput | SmartCalculator.kt:124-143 | a step moves the token's element into stack and output, adding nothing and losing nothing |
| Conversion.FeedAllCons | SmartCalculator.kt:106-144 | the token loop is one step followed by the loop over the remaining tokens, and stops at the first error |
| Conversion.SucceedsAfterStep | SmartCalculator.kt:106-144 | after a successful step, the rest of the loop succeeds exactly when the remaining tokens read and their ')' are matched |
| Conversion.FailsAtStep | SmartCalculator.kt:106-144 | a failing step fails the loop, and then some token does not read or a ')' is unmatched |
| Conversion.MatchedCons | SmartCalculator.kt:127-132 | a ')' needs an open '(' before it, and each element updates the count of open parentheses |
| Conversion.FeedAllSucceeds | SmartCalculator.kt:106-144 | the token loop succeeds exactly when every token reads and every ')' is matched |
| Conversion.FeedAllOutput | SmartCalculator.kt:106-144 | after the token loop, the stack and output hold exactly the operands and operators of the tokens |
| Conversion.DrainFacts | SmartCalculator.kt:145 | the final drain succeeds exactly when no '(' is left, and then it empties the stack onto the output |
| Conversion.ConvertedFacts | SmartCalculator.kt:91-148 | succeeds exactly when every token reads and the parentheses balance; the output then holds the operands in input order, the input's operators, no parenthesis, and a final assignment element on an assignment |
| Conversion.FeedAllIgnoresAssignment | SmartCalculator.kt:121-141 | being an assignment changes only which error the token loop raises |
| Conversion.DrainIgnoresAssignment | SmartCalculator.kt:145 | being an assignment changes only which error the drain raises |
| Conversion.AssignmentOutput | SmartCalculator.kt:145-146 | "name = e" converts exactly when e does, to e's elements followed by the assignment element |
| Conversion.FeedAllErrors | SmartCalculator.kt:121-141 | inside an assignment the token loop raises only InvalidAssignment or InvalidExpression; outside one, never InvalidAssignment |
| Conversion.DrainErrors | SmartCalculator.kt:145 | a leftover '(' is blamed on the assignment when there is one |
| Conversion.ConvertedErrors | SmartCalculator.kt:91-148 | the error kinds `shuntingYard` can raise, with and without an assignment |
| Conversion.ReadNumeral | SmartCalculator.kt:108 | a numeral token becomes a number element of its value |
| Conversion.ReadOperator | SmartCalculator.kt:110-120 | an operator-run token becomes the operator of its first character |
| Conversion.PushSecond | SmartCalculator.kt:133-136 | an incoming operator pops a stacked one unless it binds tighter |
| Conversion.PushOntoTop | SmartCalculator.kt:134-136 | an operator is pushed on top of one it binds tighter than, and otherwise pops it first |
| Conversion.StepNumeral | SmartCalculator.kt:125 | a number goes straight to the output |
| Conversion.StepOperator | SmartCalculator.kt:133-136 | an operator other than a parenthesis goes through the precedence loop |
| Conversion.FeedLastTwo | SmartCalculator.kt:106-144 | the stack and output after "b q c", once "a p" has been read |
| Conversion.FeedThree | SmartCalculator.kt:106-144 | the stack and output after "a p b q c" |
| Conversion.ThreeOperands | SmartCalculator.kt:91-148 | "a p b q c" converts to a b p c q, or to a b c q p when q binds tighter: equal precedence groups to the left, ^ included |
| RpnEvaluation.Apply | SmartCalculator.kt:66-74 | an operator fails exactly on a parenthesis (type cast), a zero divisor (arithmetic) or a power that is not finite (number format); otherwise division truncates toward zero and `^` gives the power |
| RpnEvaluation.RunOperator | SmartCalculator.kt:62-74 | an operator element over two numbers on the stack replaces them by its result, or fails with the operator's error |
| RpnEvaluation.RunPostfix | SmartCalculator.kt:58-87 | the machine pushes the value of an expression tree from its postfix form, or fails exactly as evaluating the tree fails |
| RpnEvaluation.RunComputesEval | SmartCalculator.kt:58-87 | the machine evaluates a postfix expression to the value of its tree |
| RpnEvaluation.RunAssignment | SmartCalculator.kt:78-82 | a final assignment element stores what the run without it would print, and fails exactly when that run fails |
| RpnEvaluation.ExpressionHasNoAssignment | SmartCalculator.kt:146 | the conversion of a plain expression holds no assignment element |
| RpnEvaluation.ExpressionKeepsVariables | SmartCalculator.kt:58-87 | a plain expression never changes the variables, and it prints a numeral |
| RpnEvaluation.AssignmentStores | SmartCalculator.kt:78-82 | "name = e" succeeds exactly when e does; it then prints nothing and stores under name the number e would print, leaving the other variables alone; on failure nothing is stored |
| RpnEvaluation.ThreeOperandsValue | SmartCalculator.kt:58-87 | "a p b q c" prints (a p b) q c, or a p (b q c) when q binds tighter |
| RpnEvaluation.Examples | SmartCalculator.kt:58-87 | 2 - 3 - 4 prints -5, and 2 + 3 * 4 prints 14 |
| SmartCalculator.Calculator.constructor | SmartCalculator.kt:20 | no variables are stored at the start |
| SmartCalculator.Calculator.ShuntingYard | SmartCalculator.kt:106-148 | the loops over the operator stack and the output queue compute the conversion, errors included |
| SmartCalculator.Calculator.TokenStep | SmartCalculator.kt:107-143 | the body of the token loop computes one conversion step, errors included |
| SmartCalculator.Calculator.CalculateRpn | SmartCalculator.kt:58-87 | the stack loop prints and stores exactly what the calculation of the line says |
| SmartCalculator.PopToOpening | SmartCalculator.kt:129-130 | the inner loop for ')' pops to the nearest '(' |
| SmartCalculator.PushWithPrecedence | SmartCalculator.kt:133-136 | the inner loop for an operator pops what binds at least as tightly, then pushes |
| MatrixProcessor.Transposed | MatrixProcessor.kt:143-149 | the transpose of an n x m matrix is m x n |
| MatrixProcessor.SideFlipped | MatrixProcessor.kt:151-160 | the side-diagonal reflection of an n x m matrix is m x n |
| MatrixProcessor.VerticalFlipped | MatrixProcessor.kt:162-168 | the vertical-line reflection of an n x m matrix keeps its shape |
| MatrixProcessor.HorizontalFlipped | MatrixProcessor.kt:170-176 | the horizontal-line reflection of an n x m matrix keeps its shape |
| MatrixProcessor.Minor | MatrixProcessor.kt:225-241 | the minor of an n x n matrix is (n - 1) x (n - 1) |
| MatrixProcessor.TransposeInvolution | MatrixProcessor.kt:143-149 | transposing twice gives the matrix back |
| MatrixProcessor.SideFlipInvolution | MatrixProcessor.kt:151-160 | reflecting in the side diagonal twice gives the matrix back |
| MatrixProcessor.VerticalFlipInvolution | MatrixProcessor.kt:162-168 | reflecting in the vertical line twice gives the matrix back |
| MatrixProcessor.HorizontalFlipInvolution | MatrixProcessor.kt:170-176 | reflecting in the horizontal line twice gives the matrix back |
| MatrixProcessor.SideFlipIsHalfTurnOfTranspose | MatrixProcessor.kt:151-160 | the side-diagonal reflection is the main transpose followed by a half turn, and the two line reflections commute |
| MatrixProcessor.MinorKeepsTheRest | MatrixProcessor.kt:225-241 | each entry outside row 0 and the skipped column appears in the minor at its shifted place, and nothing from the skipped column does |
| MatrixProcessor.ZeroMatrix | MatrixProcessor.kt:109 | n rows of m zeros, freshly allocated |
| MatrixProcessor.TransposeMainDiag | MatrixProcessor.kt:143-149 | the loops build a fresh matrix equal to the transpose, with the input unchanged |
| MatrixProcessor.TransposeSideDiag | MatrixProcessor.kt:151-160 | loops over the result build a fresh matrix equal to the side-diagonal reflection of any n x m matrix |
| MatrixProcessor.TransposeVertical | MatrixProcessor.kt:162-168 | the loops build the vertical-line reflection of any n x m matrix, in a fresh result of the same shape |
| MatrixProcessor.TransposeHorizontal | MatrixProcessor.kt:170-176 | the loops build the horizontal-line reflection of any n x m matrix, in a fresh result of the same shape |
| MatrixProcessor.ConstructMatrix | MatrixProcessor.kt:225-241 | the copy loop, with its separate write index, builds exactly the minor without row 0 and the skipped column |
| MatrixProcessor.SourceLoopFitsOnlySquare | MatrixProcessor.kt:143-176 | the loops of `transposeMainDiag`, `transposeVertical` and `transposeHorizontal` stay inside the m x n result they allocate exactly when the matrix is square |
| MatrixProcessor.SideLoopFitsIff | MatrixProcessor.kt:151-160 | the loops of `transposeSideDiag` stay inside the input and the result exactly when the matrix has no more rows than columns |
| MatrixProcessor.SidePadded | MatrixProcessor.kt:151-160 | what those loops return on an n x m matrix with n <= m is m x n |
| MatrixProcessor.SidePaddedByEntries | MatrixProcessor.kt:151-160 | a grid whose leading n x n block is the block's side reflection and whose other rows are zeros is that result |
| MatrixProcessor.SidePaddedSquare | MatrixProcessor.kt:151-160 | on a square matrix the loops' result is the side-diagonal reflection |
| MatrixProcessor.SideDiagWideExample | MatrixProcessor.kt:151-160 | on [[1, 2, 3], [4, 5, 6]] the loops return [[5, 2], [4, 1], [0, 0]], while the reflection is [[6, 3], [5, 2], [4, 1]] |
| MatrixProcessor.SideLoops | MatrixProcessor.kt:154-157 | the two writes per iteration fill the leading n x n block with its side reflection and change no other row |
| MatrixProcessor.SideDiagAsWritten | MatrixProcessor.kt:151-160 | the source's allocation and loops, on a matrix with no more rows than columns, return exactly that padded result |

## Left out

- Image files, the argument parsing of `main`, the console and all printing: these are I/O. `printBoard` and the player names are left out for the same reason.
- The square root in `energies`: `Energies`, `EnergyGrid` and `Carve` take it as the parameter `root`. The `Double` arithmetic of `pow` is exact integer squaring here.
- `SeamSearch.Cumulative`: cumulative costs are exact sums of real energies. The source adds `Double` values with rounding and compares the rounded sums with `<=`, so near-ties may be broken differently there, giving another parent and another seam. `SeamSearch.SeamIsOptimal` is optimality in exact arithmetic over the energies.
- `SeamCarving.Carve`: it requires an image at least 3 x 3. The clamp range of `coerceIn(1, width - 2)` is empty below that, and the source does not guard against it.
- `Tasklist.kt` is not part of this model.
- The matrix arithmetic (`add`, `multiply`, `wrongMultiply`, `determinant`, `laplace`, `inverse`, `solve`): it is floating-point work with epsilon comparisons. The matrix input and printing are I/O.
- `MatrixProcessor.SideDiagAsWritten`: it requires no more rows than columns. On a taller matrix the source's loop reads past the last column (`SideLoopFitsIff`), which the model does not follow.
- `MatrixProcessor.ConstructMatrix`: it requires a square matrix and `skipColumn` to be one of its columns. `laplace` passes only such columns; others write past the last column. `determinant` (MatrixProcessor.kt:90) passes the user's matrix without checking its shape: on a matrix with more columns than rows `constructMatrix` returns the minor of the leading square block; the model does not cover that shape.
- The calculator's regular-expression tokenizer, the character pre-check on line 96, and the extraction of the assignment name (lines 99-104): the model starts from the token list and the name.
- The console loop of the calculator, with `/help`, `/exit` and unknown commands.
- `RpnEvaluation.Apply`: `^` goes through `Double.pow` and a conversion back to an integer; the model takes that as the parameter `pow`, which returns None where the double is infinite or not a number (`0 ^ -1`, `10 ^ 400`). Which powers those are, and the rounding of the finite ones, is not modelled.
- `CalculatorSyntax.PrecedenceValue`: it requires an operator other than a parenthesis. The source throws `TypeCastException` for parentheses, but its only caller, the loop at line 134, tests for '(' first and never sees ')'.
- `InvalidIdentifierException` is declared and caught but never raised, so it only appears as an unused error kind.
- The `Unhandled exception` printing in `main`: `TypeCast`, `UnsupportedOperation`, `Arithmetic` and `NumberFormat` are returned as errors instead.
- `ConnectFour.Game.DefineBoard`: it takes answers already split at 'x' and parsed, and leaves out the messages. String parsing is left out.
- The game-count prompt of `startGame`: its answer is taken as given.
- `ConnectFour.Game.PlayRound` and `PlayGames`: they take the moves as a finite list and stop when it runs out. The source keeps reading the console instead.
- `ConnectFour.Game.ClearBoard`: it allocates the board in one piece, where the source appends rows one at a time. The resulting contents are the same.

## Findings

| source | as written | input that shows it | evidently intended | confidence | as-written member | corrected member |
|---|---|---|---|---|---|---|
| MatrixProcessor.kt:143-149 | `transposeMainDiag` allocates a columns x rows result, but loops over the input's rows and columns and writes `result[row][col]` | a 2 x 3 matrix: the iteration at row 0, column 2 reads `this[2]` of the 2-row input and writes outside the 3 x 2 result | a transpose of any n x m matrix, giving m x n | high, not executed | MatrixProcessor.SourceLoopFitsOnlySquare | MatrixProcessor.TransposeMainDiag |
| MatrixProcessor.kt:151-160 | `transposeSideDiag` allocates a columns x rows result, but its loops run over the leading rows x rows block only | the 2 x 3 matrix [[1, 2, 3], [4, 5, 6]] gives [[5, 2], [4, 1], [0, 0]]: the reflection of the leading 2 x 2 block padded with a row of zeros; a matrix with more rows than columns reads past the last column | the side-diagonal reflection of any n x m matrix, [[6, 3], [5, 2], [4, 1]] here | high, not executed | MatrixProcessor.SideDiagWideExample | MatrixProcessor.TransposeSideDiag |
| MatrixProcessor.kt:162-168 | `transposeVertical` allocates a columns x rows result, but loops over the input's rows and columns and writes `result[row][col]` | a 2 x 3 matrix: the iteration at row 0, column 2 writes outside the 3 x 2 result | each row of any n x m matrix reversed, in an n x m result | high, not executed | MatrixProcessor.SourceLoopFitsOnlySquare | MatrixProcessor.TransposeVertical |
| MatrixProcessor.kt:170-176 | `transposeHorizontal` allocates a columns x rows result, but loops over the input's rows and columns and writes `result[row][col]` | a 2 x 3 matrix: the iteration at row 0, column 2 writes outside the 3 x 2 result | the rows of any n x m matrix in reverse order, in an n x m result | high, not executed | MatrixProcessor.SourceLoopFitsOnlySquare | MatrixProcessor.TransposeHorizontal |
