# Katas: compass rose, brace expansion, zigzag matrix, dominoes, ranges, bank OCR, word wrap

This project models seven small, pure JavaScript functions from
`task/10-katas-1-tasks.js` and `task/11-katas-2-tasks.js` in Dafny and
proves properties of the models.

- `createCompassPoints` (module `Compass`). It builds the 32-point compass
  rose: four quarters of eight abbreviations each, made from two side
  letters and the "b" ("by") notation. The k-th point has azimuth 11.25·k.
- `expandBraces` (module `Braces`). It rewrites strings with a stack. The
  first `{body}` whose body is non-empty and brace-free is replaced by each
  comma-separated alternative. Strings with no such group are yielded once
  each. `Expand` is the recursive reference: it terminates on the number of
  `{` characters. `ExpandBracesLoop` is the stack loop.
- `getZigZagMatrix` (module `ZigZag`). It fills an n×n matrix along
  anti-diagonals: up-right on even diagonals, down-left on odd ones. `Zig`
  is the closed form of the value in a cell.
- `canDominoesMakeRow` (modules `Dominoes` and `DominoRow`). Each face gets
  a counter that moves in half-units; the answer is a parity test on the
  counters. Counters are kept doubled, as integers. `DominoRow` defines
  what a row of dominoes actually is, as a search for a chain of tiles.
- `extractRanges` (module `Ranges`). It writes a list of integers as
  comma-separated values and `first-last` ranges. The text is described
  through tokens:
  - `Tokens` is the intended token list;
  - `AsWrittenTokens` is what the loop actually emits.
- `parseBankAccount` (module `BankOcr`). It reads three-row digit drawings
  in cells three characters wide. The row stride is a third of the text's
  length, newline included.
- `wrapText` (module `WordWrap`). It greedily packs the words of
  `text.split(' ')` into lines of at most `columns` characters.

`StringUtils` holds the string operations the katas share: JavaScript
`split` on one character, joining, `${n}` for integers, and the
drop-the-last-character step. `Options` holds `Option`. Each
kata's documented examples are proved in a `*_examples.dfy` file, or at the
end of the kata's module.

Where the documentation and the code disagree, the model follows the code:
- `parseBankAccount` is documented to return a number (`23056789` for the
  second example). The code builds and returns a string, so the model
  returns `"023056789"`.
- `extractRanges` is documented to return the list written out. The code
  returns `''` for a one-element list and drops a last value that does not
  continue a run (see Findings).
- `canDominoesMakeRow` is documented to decide whether the tiles can be put
  in a row. The code answers with a parity test (see Findings).

## Model

| member | source | states |
|---|---|---|
| Compass.QuarterNamesMatchRose | task/10-katas-1-tasks.js:26-46 | the eight names pushed in quarter i, with either letter order, are entries 8i to 8i+7 of the standard 32-point rose |
| Compass.QuartersAt | task/10-katas-1-tasks.js:21-47 | the k-th point pushed has the k-th name of its quarter and azimuth 11.25·k; the counter starts at -1 and is bumped before each use |
| Compass.CreateCompassPoints | task/10-katas-1-tasks.js:19-47 | exactly 32 points; point k has azimuth 11.25·k, within [0, 360) |
| Compass.CompassMatchesRose | task/10-katas-1-tasks.js:19-47 | point k's abbreviation is entry k of the rose, from N clockwise to NbW |
| Compass.CompassLandmarks | task/10-katas-1-tasks.js:12-16 | N, E, S, W at points 0, 8, 16, 24 with azimuths 0, 90, 180, 270; NE, SE, SW, NW at 4, 12, 20, 28; NbE at 11.25 and NbW at 348.75 |
| Compass.CompassPointsDistinct | task/10-katas-1-tasks.js:26-47 | azimuths strictly increase along the list and no abbreviation repeats |
| Braces.FindGroup | task/10-katas-1-tasks.js:87-91 | finds the leftmost `{body}` with a non-empty brace-free body, or reports that none exists (the regex `/\{([^{}]+)\}/`) |
| Braces.MatchIsFirstOccurrence | task/10-katas-1-tasks.js:91-94 | the matched text does not occur earlier in the string, so `replace` on the matched text rewrites the matched position |
| Braces.Children | task/10-katas-1-tasks.js:93-94 | one rewrite per comma-separated alternative, empty ones included; each puts the alternative in place of the group and has one `{` fewer |
| Braces.PushAlternatives | task/10-katas-1-tasks.js:93-94 | the loop pushes the rewrites in alternative order onto the stack |
| Braces.PopGroup | task/10-katas-1-tasks.js:90-95 | replacing a popped string that has a group by its rewrites leaves the pending output unchanged and lowers the stack's measure |
| Braces.PopLeaf | task/10-katas-1-tasks.js:96-99 | a popped group-free string is yielded unless already yielded, and the stack's measure drops |
| Braces.AppendNewProperties | task/10-katas-1-tasks.js:96-98 | the earlier yields stay in front, the yielded list stays free of repeats, and it holds exactly the earlier yields plus the new strings |
| Braces.ExpandHasNoGroup | task/10-katas-1-tasks.js:91-98 | no string reached by the expansion contains a group |
| Braces.ExpandOfGroupFree | task/10-katas-1-tasks.js:91-98 | a string without a group expands to itself alone |
| Braces.ExpandBraces | task/10-katas-1-tasks.js:85-101 | the yields are pairwise distinct and group-free; a group-free input is yielded exactly once |
| Braces.AppendNewFirst | task/10-katas-1-tasks.js:96-98 | the `prnt` check keeps each string at its first occurrence, in order, and drops every later repeat |
| Braces.ExpandBracesIsDedup | task/10-katas-1-tasks.js:85-101 | a string is yielded exactly when the expansion reaches it, at its first occurrence in the expansion's order |
| Braces.ExpandBracesLoop | task/10-katas-1-tasks.js:85-101 | the stack loop yields exactly the recursive expansion with repeats removed |
| BracesExamples.ThumbnailExample | task/10-katas-1-tasks.js:79-81 | `thumbnail.{png,jp{e,}g}` yields thumbnail.jpg, thumbnail.png and thumbnail.jpeg |
| BracesExamples.DownloadsExample | task/10-katas-1-tasks.js:65-70 | the Downloads/Pictures × jpg/gif/png example yields the six documented paths |
| BracesExamples.ItemizedExample | task/10-katas-1-tasks.js:72-77 | the nested `It{{em,alic}iz,erat}e{d,}` example yields the six documented words |
| BracesExamples.NothingToDoExample | task/10-katas-1-tasks.js:83 | `nothing to do` yields itself once |
| ZigZag.Zig | task/10-katas-1-tasks.js:135-153 | the value in cell (i, j) lies in the block of values given to anti-diagonal i+j, after every value of the earlier diagonals |
| ZigZag.BeforeStrict | task/10-katas-1-tasks.js:135-153 | each diagonal gets at least one value, and its values are below every value of a later diagonal |
| ZigZag.WalkUp | task/10-katas-1-tasks.js:136-144 | after walking an even diagonal, the cells numbered up to the diagonal's end hold their numbers and every other cell is still 0; the counter has advanced by the diagonal's length |
| ZigZag.WalkDown | task/10-katas-1-tasks.js:145-153 | the same for an odd diagonal, walked top-right to bottom-left |
| ZigZag.GetZigZagMatrix | task/10-katas-1-tasks.js:132-155 | the matrix is n×n and every cell holds the zigzag value of its position |
| ZigZag.ZigRange | task/10-katas-1-tasks.js:134-154 | every value is below n² |
| ZigZag.ZigInjective | task/10-katas-1-tasks.js:134-154 | two cells holding the same value are the same cell |
| ZigZag.ZigSurjective | task/10-katas-1-tasks.js:134-154 | every value from 0 to n²−1 is in some cell |
| ZigZag.ZigCorners | task/10-katas-1-tasks.js:134-154 | the top-left cell holds 0 and the bottom-right cell holds n²−1 |
| ZigZag.PathSameDiagonal | task/10-katas-1-tasks.js:136-153 | within a diagonal, value v+1 is up-right of v on even diagonals and down-left of it on odd ones |
| ZigZag.ZigPath | task/10-katas-1-tasks.js:135-153 | consecutive values sit in neighbouring cells, diagonals included: the zigzag path never jumps |
| ZigZag.ZigZagExample1 | task/10-katas-1-tasks.js:117 | n = 1 gives [[0]] |
| ZigZag.ZigZagExample2 | task/10-katas-1-tasks.js:119-120 | n = 2 gives the documented matrix |
| ZigZag.ZigZagExample3 | task/10-katas-1-tasks.js:122-124 | n = 3 gives the documented matrix |
| ZigZag.ZigZagExample4 | task/10-katas-1-tasks.js:126-129 | n = 4 gives the documented matrix |
| Dominoes.AddTile | task/10-katas-1-tasks.js:180-198 | a tile raises the counters of its faces and of no other face |
| Dominoes.TallyFace | task/10-katas-1-tasks.js:179-199 | a face's counter is zero exactly when the face is unused; it has a half exactly when the face is met only on doubles; modulo 2 it is ½ for such a face, otherwise 1 per odd number of non-double tile ends |
| Dominoes.OddHalvesOfTally | task/10-katas-1-tasks.js:200 | the sum of the counters modulo 2 is one unit per face with an odd number of tile ends, plus one half per face met only on doubles |
| Dominoes.Handshake | task/10-katas-1-tasks.js:190-197 | the tile ends counted over all faces are twice the number of non-double tiles |
| Dominoes.OddFacesEven | task/10-katas-1-tasks.js:190-200 | an even number of faces has an odd number of tile ends |
| Dominoes.CanDominoesMakeRowIff | task/10-katas-1-tasks.js:200-201 | true exactly when no face is met only on doubles and at most two faces have an odd number of tile ends, or when exactly four faces are met only on doubles and none has an odd number |
| Dominoes.DominoesExample1 | task/10-katas-1-tasks.js:172 | [[0,1],[1,1]] gives true |
| Dominoes.DominoesExample2 | task/10-katas-1-tasks.js:173 | [[1,1],[2,2],[1,5],[5,6],[6,3]] gives false |
| Dominoes.DominoesExample3 | task/10-katas-1-tasks.js:174 | the six-tile example gives true |
| Dominoes.DominoesExample4 | task/10-katas-1-tasks.js:175 | the ten-tile example gives false |
| DominoRow.ChainSound | task/10-katas-1-tasks.js:158-165 | when the search succeeds there is a row of exactly these tiles, each perhaps turned, starting at the given face |
| DominoRow.ChainComplete | task/10-katas-1-tasks.js:158-165 | when such a row exists the search succeeds |
| DominoRow.CanMakeRowIff | task/10-katas-1-tasks.js:158-165 | the search answers true exactly when the tiles can be laid in one row |
| DominoRow.SingleDoubleRejected | task/10-katas-1-tasks.js:178-201 | the code answers false for the single tile [1,1], which is a row on its own |
| DominoRow.FourDoublesAccepted | task/10-katas-1-tasks.js:178-201 | the code answers true for [1,1],[2,2],[3,3],[4,4], which admit no row |
| Ranges.TokensFlatten | task/10-katas-1-tasks.js:226-229 | the intended tokens expand back to the input list, in order |
| Ranges.TokensWellFormed | task/10-katas-1-tasks.js:226-230 | in the intended tokens, each range covers a maximal run of three or more consecutive values; shorter runs are written value by value |
| Ranges.TokensUnique | task/10-katas-1-tasks.js:226-230 | any token list of that form that spells the list is the intended one |
| Ranges.RenderNoStrayComma | task/10-katas-1-tasks.js:273 | the text is empty only for no tokens, and it never starts or ends with a comma |
| Ranges.RenderParses | task/10-katas-1-tasks.js:226-228 | reading the comma-separated text back gives the tokens it was written from |
| Ranges.FixedRoundTrip | task/10-katas-1-tasks.js:224-231 | the intended text reads back to tokens that expand to the input |
| Ranges.EmitValues | task/10-katas-1-tasks.js:259-261 | writes each value of a short run followed by a comma |
| Ranges.WriteRun | task/10-katas-1-tasks.js:258-271 | a finished run is written as `first-last,` when it has three or more values, otherwise value by value |
| Ranges.WriteLastRun | task/10-katas-1-tasks.js:250-256 | a run reaching the end of the list is written and the final comma dropped; when the text so far holds the earlier tokens, the result is the intended text of the whole list |
| Ranges.FollowRun | task/10-katas-1-tasks.js:246-257 | the inner loop follows consecutive values to the end of their run; `ctrl` counts the steps, and the loop stops at a run start or at the list's end |
| Ranges.ScanRuns | task/10-katas-1-tasks.js:243-272 | either the loop returns the text early or it leaves the last value alone with every earlier run written |
| Ranges.ExtractRanges | task/10-katas-1-tasks.js:242-274 | the code returns the comma-joined text of its tokens: the intended tokens without a last lone value |
| Ranges.AsWrittenLosesLast | task/10-katas-1-tasks.js:258-273 | the code's tokens are the intended ones, except that a last value that starts a run of its own is missing |
| Ranges.LoneLastLost | task/10-katas-1-tasks.js:262-273 | for such a list the code's text is strictly shorter than the intended text |
| Ranges.ExtractRangesFixed | task/10-katas-1-tasks.js:242-274 | the loop that also writes a last lone value returns the intended text |
| RangesExamples.ZeroToFive | task/10-katas-1-tasks.js:237 | [0..5] gives `0-5` |
| RangesExamples.OneFourFive | task/10-katas-1-tasks.js:238 | [1,4,5] gives `1,4,5` |
| RangesExamples.ThreeRuns | task/10-katas-1-tasks.js:239 | [0,1,2,5,7,8,9] gives `0-2,5,7-9` |
| RangesExamples.TwoPairs | task/10-katas-1-tasks.js:240 | [1,2,4,5] gives `1,2,4,5` |
| RangesExamples.LastValueDropped | task/10-katas-1-tasks.js:258-273 | the code writes `1` for [1,3], where `1,3` is meant |
| RangesExamples.SingleValueDropped | task/10-katas-1-tasks.js:243-273 | the code writes nothing for [5], where `5` is meant |
| BankOcr.GlyphOf | task/11-katas-2-tasks.js:41-50 | every digit glyph has three rows of three characters and no newline |
| BankOcr.GlyphsDistinct | task/11-katas-2-tasks.js:41-50 | the ten glyphs are pairwise distinct |
| BankOcr.ReadGlyph | task/11-katas-2-tasks.js:41-50 | reading a digit's glyph gives that digit back |
| BankOcr.ReadDigit | task/11-katas-2-tasks.js:41-50 | finds the digit whose glyph the cell is, or none when the cell matches no glyph |
| BankOcr.CellTextIsDigit | task/11-katas-2-tasks.js:41-50 | the ten tests append exactly the digit read from the cell, or nothing |
| BankOcr.Slice | task/11-katas-2-tasks.js:41 | `slice` never gives more than the requested width, and inside the string it is the substring |
| BankOcr.DecodeDigits | task/11-katas-2-tasks.js:39-53 | the result is all digits, at most one per cell visited |
| BankOcr.ParseBankAccount | task/11-katas-2-tasks.js:36-54 | the loop returns the decoding, which is all digits and no longer than the number of cells |
| BankOcr.CellOfDrawing | task/11-katas-2-tasks.js:38-50 | in three drawn rows, the cell at 3k read with stride length/3 is the glyph of digit k |
| BankOcr.NewlineCell | task/11-katas-2-tasks.js:40-52 | the extra cell after the last digit takes in the newline, so it matches no glyph |
| BankOcr.DecodeDrawing | task/11-katas-2-tasks.js:36-54 | drawing any digits as three newline-terminated rows and parsing them gives the digits back |
| BankOcrExamples.Ones | task/11-katas-2-tasks.js:23-25 | the first example reads `123456789` |
| BankOcrExamples.LeadingZero | task/11-katas-2-tasks.js:27-29 | the second example reads `023056789` |
| BankOcrExamples.Eights | task/11-katas-2-tasks.js:31-33 | the third example reads `823856989` |
| WordWrap.Fill | task/11-katas-2-tasks.js:87-90 | the words taken fit in `columns`, and one more word would not |
| WordWrap.TakeWords | task/11-katas-2-tasks.js:85-90 | the inner loop stops at the first word that would overflow the line: the words taken fit in `columns`, and one more would not |
| WordWrap.LineOf | task/11-katas-2-tasks.js:92-96 | the yielded line is the taken words joined by single spaces |
| WordWrap.Wrap | task/11-katas-2-tasks.js:84-97 | the generator gets stuck only in front of a word longer than `columns` |
| WordWrap.WrapLines | task/11-katas-2-tasks.js:81-97 | the generator's loop yields what `WrapText` describes |
| WordWrap.WrapOfGreedy | task/11-katas-2-tasks.js:84-97 | any greedy layout that ends at the last word or at an overlong word is what the generator yields |
| WordWrap.GreedyOfWrap | task/11-katas-2-tasks.js:84-97 | what the generator yields is a greedy layout: each line non-empty and fitting, the next word not fitting |
| WordWrap.GreedyUnique | task/11-katas-2-tasks.js:87-90 | there is only one greedy layout of a word range |
| WordWrap.LinesFit | task/11-katas-2-tasks.js:87-96 | every line of a greedy layout is at most `columns` long |
| WordWrap.LinesJoin | task/11-katas-2-tasks.js:92-96 | joining the lines with spaces gives the words joined with spaces: nothing split, dropped or reordered |
| WordWrap.SpinsIff | task/11-katas-2-tasks.js:84-91 | the generator gets stuck exactly when some word is longer than `columns`, and all the words before that one fit |
| WordWrap.WrapTextLines | task/11-katas-2-tasks.js:81-97 | when every word fits, the generator finishes, every line fits, and joining the lines with spaces gives back the text |
| WordWrapExamples.Wrap26 | task/11-katas-2-tasks.js:67-70 | the sentence at 26 columns gives the four documented lines |
| WordWrapExamples.Wrap12 | task/11-katas-2-tasks.js:72-79 | the sentence at 12 columns gives the eight documented lines |
| StringUtils.Split | task/11-katas-2-tasks.js:82 | `split` gives one more piece than there are separators, and no piece contains one |
| StringUtils.JoinSplit | task/11-katas-2-tasks.js:82 | joining the pieces with the separator gives the string back |
| StringUtils.SplitJoin | task/10-katas-1-tasks.js:93 | splitting a join of separator-free pieces gives the pieces back |
| StringUtils.LedJoin | task/11-katas-2-tasks.js:92-96 | building `' ' + w` for each word gives a space followed by the words joined with spaces, so `substr(1)` leaves the join |
| StringUtils.TerminatedJoin | task/10-katas-1-tasks.js:273 | dropping the last comma of `a,b,c,` gives the parts joined by commas |
| StringUtils.IntToString | task/10-katas-1-tasks.js:250 | `${n}` is non-empty, has no comma, and has a dash only as a leading sign |
| StringUtils.ParseIntOfIntToString | task/10-katas-1-tasks.js:250 | the decimal text of an integer reads back to that integer |

## Left out

- JavaScript `function*` laziness. `ExpandBraces` returns the full list of
  yields. `WrapText` returns either the finite list of lines, or
  `Spinning(lines, at)` for a generator that yields `''` forever.
- Braces.Children: replacement patterns are not modelled. JavaScript
  `replace` interprets `$&`, `$'`, `` $` `` and `$$` inside an alternative;
  here every alternative is inserted literally.
- IEEE floating point. Azimuths are exact reals (`45/4 · k`), and domino
  counters are integers in half-units. Both values are exact in binary
  floating point, so nothing is lost.
- Dominoes.CanDominoesMakeRow: requires faces 0 to 6. In the code, a
  face of 7 or more reads a missing counter, which becomes `NaN`; the sum
  of the counters is then `NaN` and the code answers false. A negative
  face becomes a property that `reduce` never visits, so that tile end is
  ignored. Neither case is modelled.
- The commented-out search in `canDominoesMakeRow`
  (task/10-katas-1-tasks.js:202-219) is dead code.
- The `s--` after the inner loop of `wrapText` (task/11-katas-2-tasks.js:91)
  has no effect, because `s` is reset before it is read again.
- ZigZag.GetZigZagMatrix: takes a natural number `n`. A negative `n` makes
  `Array(n)` throw.
- WordWrap.WrapText: `columns` is an integer. A fractional `columns` gives
  the same lines as its floor, which is not stated.
- The model does not require the nine digits and three rows of 27
  characters that `parseBankAccount` documents. Texts of any length are
  read the way the code reads them.
- Ranges.ExtractRanges: the values are unbounded integers. JavaScript
  numbers are doubles, so the code writes `${n}` in exponent notation once
  |n| reaches 10^21, and `p+1===nums[i]` is no longer exact above 2^53 (`[2**53,
  2**53]` counts as a run). Neither effect is modelled, and fractional
  values are outside the documented domain of integers. The same holds
  for StringUtils.IntToString, which always writes plain decimal text.
- Strings are sequences of characters, without UTF-16 surrogates.
- `module.exports` is wiring only.
- `getPokerHandRank` and `getFigureRectangles` only throw "Not
  implemented", and the poker rank table is constants. They are not part of
  this model.

## Findings

| source | as written | input that shows it | evidently intended | confidence | as-written member | corrected member |
|---|---|---|---|---|---|---|
| task/10-katas-1-tasks.js:258-273 | when the last value does not continue the run before it, the loop ends before writing it | `[1, 3]` gives `'1'`, and `[5]` gives `''` | `'1,3'` and `'5'`: every value is written | high, not executed | RangesExamples.LastValueDropped | Ranges.ExtractRangesFixed |
| task/10-katas-1-tasks.js:200-201 | a parity test on per-face counters decides whether the tiles make a row | `[[1,1]]` gives false although one tile is a row; `[[1,1],[2,2],[3,3],[4,4]]` gives true although no two of these tiles connect | true exactly when the tiles can be laid end to end | high, not executed | DominoRow.SingleDoubleRejected | DominoRow.CanMakeRowIff |

For extractRanges:
- `Ranges.LoneLastLost` states the loss for every such input.
- `Ranges.FixedRoundTrip` and `Ranges.TokensUnique` show that the corrected
  text determines the input.

For canDominoesMakeRow:
- `DominoRow.FourDoublesAccepted` is the accepting counterexample.
- `DominoRow.CanMakeRow` is the corrected decision. `CanMakeRowIff` proves
  that it answers true exactly when a row exists.
