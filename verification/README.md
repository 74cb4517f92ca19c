# Advent of Code 2024 puzzle cores, modelled in Dafny

Six puzzle solutions each read a file, run a small in-memory computation and
print a number. This project models those computations, each in one module,
and proves what each promises. The file reading and printing around them are
left out.

- `PageOrdering` (`page_ordering.dfy`, day 5) covers the page-update ordering engine:
  - unordered rule keys;
  - the rule map, in which a later rule overwrites an earlier one with the same key;
  - all index pairs of an update;
  - the applicable rules, in pair order;
  - the page-to-position map;
  - rule checks;
  - the single corrective pass of conditional swaps, with the middle page.

  Ordering an update keeps the pages-to-positions bijection and the multiset of pages. An update that is already ordered is left unchanged.
- `PageOrderingExamples` (`page_ordering_examples.dfy`) proves what `NewUpdate`, `Order`, `IsCorrectlyOrdered` and `MiddlePage` give for each of the six sample updates of the program's test.
- `WordSearch` (`word_search.dfy`, day 4) covers:
  - the grid transforms: rows, transpose, rotate and diagonals;
  - the list of search directions;
  - the prefix-count pass that counts a word in a line and in its reverse.

  For a word with distinct letters, that count is proved equal to the number of ways the word is spelt by a subsequence of the line. This is at least the number of contiguous occurrences; the difference is the over-count the source's TODO comment notes.
- `WordSearchExamples` (`word_search_examples.dfy`) gives worked counts, including the line the entry point prints and the line named in the TODO comment.
- `Reports` (`reports.dfy`, day 2) covers report safety and the count of safe reports.
- `Locations` (`locations.dfy`, day 1) covers the pairwise distance of two location lists and the occurrence tally of a list.
- `Instructions` (`instructions.dfy`, day 3) writes the regular expression `mul\((\d{1,3}),(\d{1,3})\)|do\(\)|don't\(\)` out as a hand scanner:
  - `MatchAt` recognises one instruction at one position;
  - `Matches` scans leftmost, without overlaps, resuming after each match;
  - the enable flag then decides which multiplications are kept.
- `InstructionsExamples` (`instructions_examples.dfy`) gives small worked scans.
- `Trails` (`trails.dfy`, day 10) covers:
  - the trail graph: one node per cell in row-major order, and an edge from a cell to each right or lower neighbour exactly one unit higher, or the reverse;
  - the row-major numbering and its inverse;
  - the trail heads;
  - the trail-head score, defined as the number of height-9 nodes reachable by a path in the graph.

  The score is computed by a breadth-bounded frontier and proved equal to that reachability definition.

## Model

| member | source | states |
|---|---|---|
| PageOrdering.UnorderedKey | day05/src/main.rs:154-164 | the key of a pair is the pair or its swap, with the smaller page first |
| PageOrdering.UnorderedKeySymmetric | day05/src/main.rs:154-164 | a pair and its swap have the same key |
| PageOrdering.RuleKey | day05/src/main.rs:166-175 | a rule's key is the unordered key of its (before, after) pair |
| PageOrdering.FindPairs | day05/src/main.rs:136-144 | the loop returns exactly the pairs of `Pairs` |
| PageOrdering.PairsSpec | day05/src/main.rs:136-144 | `Pairs` (`find_pairs`): there are n(n-1)/2 pairs; every (v[i], v[j]) with i < j is one, and each pair is one of those |
| PageOrdering.PairsOrder | day05/src/main.rs:136-144 | the k-th pair comes from the k-th index pair, and index pairs increase by i then j |
| PageOrdering.RulesToMap | day05/src/main.rs:177-185 | every rule is stored under its own unordered key |
| PageOrdering.RulesToMapSpec | day05/src/main.rs:177-185 | the keys are exactly the rules' keys, and each maps to the last rule with that key |
| PageOrdering.Lookup | day05/src/main.rs:192-196 | a pair finds a rule iff its unordered key is present, and that rule relates the two pages |
| PageOrdering.LookupSymmetric | day05/src/main.rs:154-164 | looking up a pair or its swap gives the same rule |
| PageOrdering.ApplicableRulesAppend | day05/src/main.rs:187-198 | selection distributes over concatenated pair lists, so it keeps pair order |
| PageOrdering.ApplicableRulesSingle | day05/src/main.rs:187-198 | a pair contributes its rule when one is present and nothing otherwise |
| PageOrdering.ApplicableRulesSpec | day05/src/main.rs:187-198 | `ApplicableRules` (`find_applicable_rules`): at most one rule per pair; every pair with a rule contributes it; every selected rule is some pair's rule |
| PageOrdering.PagesToPositionsSpec | day05/src/main.rs:200-206 | `PagesToPositions` (`pages_to_positions`): the keys are exactly the pages; with distinct pages each page maps to its index |
| PageOrdering.NewUpdate | day05/src/main.rs:57-60 | the update keeps the pages as given |
| PageOrdering.NewUpdateSpec | day05/src/main.rs:57-60 | the position map covers every page; it is a bijection with the indices iff the pages are distinct |
| PageOrdering.SatisfiedMeaning | day05/src/main.rs:209-213 | `Satisfied` (`satisfied`): a rule is satisfied iff its before page sits at a smaller index than its after page |
| PageOrdering.AllSatisfiedMeaning | day05/src/main.rs:62-71 | `AllSatisfied` (the loop of `is_correctly_ordered`): the early-exit loop accepts iff every rule in the list is satisfied |
| PageOrdering.CorrectlyOrderedMeaning | day05/src/main.rs:62-71 | `IsCorrectlyOrdered` (`is_correctly_ordered`): an update is accepted iff, for every pair of pages i < j that has a rule, that rule puts the page at i first |
| PageOrdering.SwapSpec | day05/src/main.rs:219-223 | `Swap` (the two swaps in `apply`): swapping two pages exchanges their positions, rewrites only those two entries and keeps the bijection |
| PageOrdering.SwapPermutes | day05/src/main.rs:221 | exchanging two entries keeps the multiset of pages |
| PageOrdering.ApplySpec | day05/src/main.rs:215-224 | `Apply` (`apply`): a satisfied rule leaves the update unchanged; otherwise the pages swap, the bijection and multiset are kept and the rule holds afterwards |
| PageOrdering.ApplyAllSpec | day05/src/main.rs:73-79 | `ApplyAll` (the loop of `order`): applying a list of rules in order keeps the bijection, the multiset of pages and the page set |
| PageOrdering.ApplyAllSatisfied | day05/src/main.rs:73-79 | a list of rules that all hold changes nothing |
| PageOrdering.OrderSpec | day05/src/main.rs:73-79 | `Order` (`order`): the rules are selected once from the pages before any swap; the result is a permutation with a consistent position map |
| PageOrdering.ApplicableRulesLocal | day05/src/main.rs:187-198 | two rule indexes that agree on the keys of the given pairs select the same rules |
| PageOrdering.OrderLocal | day05/src/main.rs:62-79 | ordering and validation depend on the rule index only through the rules for the update's own pairs of pages |
| PageOrdering.OrderKeepsCorrect | day05/src/main.rs:62-79 | ordering an update that is already correctly ordered leaves it unchanged |
| PageOrdering.MiddleElement | day05/src/main.rs:87-89 | the result is the element at index len/2, which has as many elements after it as before, or one fewer |
| PageOrdering.MiddleIndexUnique | day05/src/main.rs:87-89 | index len/2 is the only index with that balanced split, so the middle element is well defined |
| PageOrdering.MiddlePage | day05/src/main.rs:81-83 | the middle page of a non-empty update is its page at index len/2, one of its pages |
| PageOrderingExamples.FirstOrdered | day05/src/main.rs:232-274 | sample update 75,47,61,53,29 is already ordered: the pass leaves it unchanged and the middle page is 61 |
| PageOrderingExamples.SecondOrdered | day05/src/main.rs:232-274 | sample update 97,61,53,29,13 is already ordered, with middle page 53 |
| PageOrderingExamples.ThirdOrdered | day05/src/main.rs:232-274 | sample update 75,29,13 is already ordered, with middle page 29 |
| PageOrderingExamples.FourthOrdered | day05/src/main.rs:232-274 | sample update 75,97,47,61,53 becomes 97,75,47,61,53, accepted, with middle page 47 |
| PageOrderingExamples.FifthOrdered | day05/src/main.rs:232-274 | sample update 61,13,29 becomes 61,29,13, accepted, with middle page 29 |
| PageOrderingExamples.SixthOrdered | day05/src/main.rs:232-274 | sample update 97,13,75,29,47 becomes 97,75,47,29,13, accepted, with middle page 47 |
| WordSearch.GetRows | day04/src/main.rs:215-224 | one string per row, in order, holding that row's characters |
| WordSearch.ColumnSpec | day04/src/main.rs:199-213 | a column lists, in row order, the cells of exactly the rows long enough to hold it |
| WordSearch.ColumnFull | day04/src/main.rs:199-213 | when every row holds column c, the column is g[r][c] for every row r |
| WordSearch.TransposeSpec | day04/src/main.rs:199-213 | `Transpose` (`transpose`): the transpose has as many rows as row 0 has columns, and t[c][r] == g[r][c] |
| WordSearch.TransposeTwice | day04/src/main.rs:199-213 | transposing a rectangular grid twice gives it back |
| WordSearch.RotateIsTransposedReverse | day04/src/main.rs:185-197 | `Rotate` (`rotate`): rotating is transposing the grid with its rows reversed, so rot[c][k] == g[nrows-1-k][c] |
| WordSearch.RotateShape | day04/src/main.rs:185-197 | rotation swaps the dimensions and keeps the grid rectangular |
| WordSearch.RotateFour | day04/src/main.rs:185-197 | four rotations give the grid back |
| WordSearch.DiagonalSpec | day04/src/main.rs:242-255 | `Diagonal` (`_get_diagonal`): the diagonal from (r, c) is g[r+k][c+k] for k < min(nrows-r, ncols-c), with ncols from row 0 |
| WordSearch.GetDiagonalsSpec | day04/src/main.rs:226-240 | `GetDiagonals` (`get_diagonals`): nrows + ncols - 1 diagonals, the first nrows starting in column 0 and the rest in row 0 at columns 1 and up |
| WordSearch.GetDirectionsSpec | day04/src/main.rs:161-181 | `GetDirections` (`get_directions`): the directions are the rows, then the columns, then the diagonals, and nothing else |
| WordSearch.CharMapsSpec | day04/src/main.rs:110-120 | a letter maps to its last index in the word and to the prefix ending there |
| WordSearch.DistinctTables | day04/src/main.rs:110-120 | with distinct letters, the j-th letter maps to j and to the prefix of length j+1 |
| WordSearch.UpdateMatchesSpec | day04/src/main.rs:76-99 | `UpdateMatches` (`_update_matches`): a first letter adds one to its prefix's count; any other letter adds the previous prefix's count; no other count changes |
| WordSearch.CountsUpToEmbeddings | day04/src/main.rs:124-133 | after n characters, the count of each prefix is the number of ways the first n characters spell it as a subsequence |
| WordSearch.ForwardCountEmbeddings | day04/src/main.rs:124-139 | the forward count is the number of subsequence spellings of the word |
| WordSearch.MatchesInDirectionEmbeddings | day04/src/main.rs:106-159 | `MatchesInDirection` (`_get_n_matches_in_direction`): a direction's count is the subsequence spellings in the line plus those in its reverse |
| WordSearch.GetNMatchesSplit | day04/src/main.rs:42-51 | `GetNMatches` (`get_n_matches`): the total is the sum over the rows, then the columns, then the diagonals |
| WordSearchExamples.EntryPointLine | day04/src/main.rs:10-12 | the line "MXMXAXMASX" is counted 5 times for "XMAS" |
| WordSearchExamples.CommentLine | day04/src/main.rs:107-108 | the line "MASAMXXAM" is counted 2 times for "XMAS" |
| Reports.IsMonotonic | day02/src/main.rs:21-34 | true iff the levels are non-decreasing or non-increasing; equal neighbours break neither |
| Reports.StepSizes | day02/src/main.rs:38-42 | one entry per pair of neighbours, in order, each the absolute difference of that pair |
| Reports.AllWithin | day02/src/main.rs:44 | true iff every value lies in [lower, upper] |
| Reports.DifferenceWithinBounds | day02/src/main.rs:37-45 | true iff every step between neighbours has a size in [lower, upper] |
| Reports.MonotoneBoundedMeaning | day02/src/main.rs:47-50 | monotone with steps of 1 to 3 iff strictly increasing or strictly decreasing by 1 to 3 |
| Reports.IsSafe | day02/src/main.rs:48-50 | true iff the report goes strictly one way in steps of 1 to 3 |
| Reports.ShortReportsSafe | day02/src/main.rs:25-44 | a report of fewer than two levels is safe |
| Reports.FlatStepUnsafe | day02/src/main.rs:48-50 | a report with two equal neighbours is unsafe |
| Reports.CountSafeReports | day02/src/main.rs:55-57 | the count is the number of safe reports and at most the number of reports |
| Reports.NumSafeAll | day02/src/main.rs:55-57 | the count equals the number of reports iff every report is safe |
| Reports.NumSafeAppend | day02/src/main.rs:55-57 | counting over a + b adds the counts over a and b |
| Locations.TotalDistanceSymmetric | day01/src/main.rs:34-40 | swapping the two lists leaves the total unchanged |
| Locations.TotalDistanceZero | day01/src/main.rs:34-40 | the total is zero iff the lists agree on every shared position |
| Locations.TotalDistanceTruncates | day01/src/main.rs:35-36 | entries past the end of the shorter list do not count |
| Locations.TotalDistanceSnoc | day01/src/main.rs:35-39 | `TotalDistance` (`compute_total_distance`): adding a pair at the end adds that pair's absolute difference |
| Locations.CountOccurrencesSpec | day01/src/main.rs:43-50 | `CountOccurrences` (`count_occurrences`): the keys are exactly the ids present, each mapping to its number of positions, at least one |
| Locations.CountOccurrencesOrderFree | day01/src/main.rs:12-17 | lists with the same multiset of ids have the same tally, so sorting first changes nothing |
| Locations.CountOccurrencesSum | day01/src/main.rs:43-50 | the counts add up to the length of the list |
| Instructions.DigitRun | day03/src/main.rs:27 | the run of digits starting at i is maximal |
| Instructions.ToDecimalRoundTrip | day03/src/main.rs:41-42 | printing a number in decimal and reading it back gives the number; it has at most three digits iff it is below 1000 |
| Instructions.MatchAt | day03/src/main.rs:27 | a recognised instruction ends inside the string, and its operands are at most 999 |
| Instructions.MatchAtMul | day03/src/main.rs:27 | a `mul(` with 1-3 digits, a comma, 1-3 digits and `)` is read with those operands |
| Instructions.MatchAtMulSound | day03/src/main.rs:27 | every multiplication read has exactly that shape, with its operands' decimal values |
| Instructions.MatchAtToggle | day03/src/main.rs:27 | `do()` and `don't()` are read iff they appear at that position |
| Instructions.MatchAtNone | day03/src/main.rs:27 | nothing is read where none of the three instructions starts |
| Instructions.MatchAtRender | day03/src/main.rs:27 | every instruction written out as text is read back as itself |
| Instructions.MatchesSpec | day03/src/main.rs:27-29 | `Matches` (the regex's `captures_iter`): matches come in increasing position, each starting after the last one ended; the first starts at the first recognisable position, and no instruction is skipped between or after them |
| Instructions.TokensBounded | day03/src/main.rs:27 | `Tokens` (the instructions of the matches): every multiplication found has operands in 0..999 |
| Instructions.FlagMeaning | day03/src/main.rs:26-37 | the flag is clear iff some `don't()` has not been followed by a `do()` |
| Instructions.KeptSubsequence | day03/src/main.rs:38-43 | `Kept` (the multiplications pushed while enabled): the kept multiplications are a subsequence, in input order, of all multiplications found |
| Instructions.NoDontKeepsAll | day03/src/main.rs:26-43 | without a `don't()` every multiplication is kept |
| Instructions.DontSilences | day03/src/main.rs:34-40 | after a `don't()` that has not been followed by a `do()`, nothing more is kept |
| Instructions.ParseMultiplications | day03/src/main.rs:24-47 | the loop keeps exactly the multiplications found while the flag is set, with operands in 0..999 |
| Instructions.MulFits | day03/src/main.rs:19-21 | `Mul` (`mul`): a product of two operands up to 999 fits in a signed 32-bit integer |
| InstructionsExamples.FourDigitsRejected | day03/src/main.rs:27 | `mul(1234,5)` is not an instruction |
| InstructionsExamples.UnclosedRejected | day03/src/main.rs:27 | `mul(32,64]` is not an instruction |
| InstructionsExamples.DoInsideWord | day03/src/main.rs:27 | the `do()` inside `undo()` is found |
| InstructionsExamples.ShortTokens | day03/src/main.rs:27-29 | scanning `xmul(2,4)do()` finds the multiplication and then `do()` |
| InstructionsExamples.SampleKept | day03/src/main.rs:26-43 | of 2*4, don't, 5*5, 11*8, do, 8*5 only 2*4 and 8*5 are kept |
| Trails.MapIndexGraphIndex | day10/trail.py:74-80 | `GraphIndex` (`get_graph_index`) and `MapIndex` (`get_map_index`): decoding a cell's row-major number gives the cell back |
| Trails.GraphIndexMapIndex | day10/trail.py:74-80 | numbering the decoded cell of a node gives the node back |
| Trails.GraphIndexOrder | day10/trail.py:31-33 | node numbers increase in row-major order of cells |
| Trails.NodesSpec | day10/trail.py:31-33 | node i*cols + j holds the height of cell (i, j) |
| Trails.MapToGraphNodes | day10/trail.py:27-33 | `MapToGraph` (`map_to_graph`): one node per cell, each holding that cell's height |
| Trails.GridLinksSpec | day10/trail.py:35-49 | every link joins 4-neighbours and climbs by exactly one; no link appears twice |
| Trails.GridLinksComplete | day10/trail.py:35-49 | every pair of 4-neighbours that climbs by exactly one is linked |
| Trails.MapToGraphSound | day10/trail.py:35-49 | every edge goes from a cell to an in-bounds 4-neighbour exactly one higher |
| Trails.MapToGraphComplete | day10/trail.py:35-49 | every such step is an edge |
| Trails.MapToGraphNoDuplicates | day10/trail.py:37-49 | each unordered pair gets at most one edge |
| Trails.MapToGraphGraded | day10/trail.py:46-49 | every edge climbs by exactly one |
| Trails.GradedOneWay | day10/trail.py:46-49 | no two nodes are joined in both directions |
| Trails.PathClimbs | day10/trail.py:46-49 | the n-th node of a path is n higher than the first |
| Trails.PathSimple | day10/trail.py:46-49 | no path visits a node twice, so the graph has no cycle |
| Trails.TrailLength | day10/trail.py:46-49 | a path from height 0 to height 9 has exactly 10 nodes |
| Trails.TrailEndsMeaning | day10/trail.py:82-87 | `TrailEnds` (`get_trail_ends`): the trail ends of a node are exactly the height-9 nodes reachable from it |
| Trails.TrailHeadsSpec | day10/trail.py:65-72 | `TrailHeads` (`trail_heads`): the trail heads are exactly the height-0 cells, in row-major order |
| Trails.FromTopoMap | day10/trail.py:60-63 | the hiking map holds the topographic map and its graph |
| Trails.ScoreTrailHeadMeaning | day10/trail.py:108-109 | `ScoreTrailHead` (`score_trail_head`): a head's score is the number of height-9 nodes reachable from it |
| Trails.ScoreHikingMapMeaning | day10/trail.py:112-113 | `ScoreHikingMap` (`score_hiking_map`): the map's score sums the reachable height-9 nodes over the trail heads |

## Left out

- Reading input files, parsing lines and printing, including every `main`, are left out; only the computations between them are modelled.
- Fixed-width integers are modelled as unbounded integers. The day 5 pages are `i8`. The day 1 differences, their sum and the occurrence counts are `i32`. The day 2 subtraction and the day 3 product and sum are `i32`, and the day 2 step sizes are `u32`. The day 2 count of safe reports and the day 4 counts are `usize`. `Instructions.MulFits` shows that a single product cannot overflow.
- Hash-map iteration order is left out, since no result depends on it.
- `get_n_matches_per_direction` is left out. It only collapses duplicate direction strings into a map for printing.
- The `sort` calls in the day 1 `main` are left out. `Locations.CountOccurrencesOrderFree` shows the tally does not depend on them; the distance is stated for lists as given.
- The regex engine is left out: the pattern is written out as the scanner `MatchAt`/`Matches`. `\d` is modelled as the ASCII digits `0`-`9`; the regex crate's `\d` also accepts other Unicode decimal digits.
- The numpy arrays and the rustworkx graph are replaced by sequences. `rustworkx.descendants` is replaced by a path-based reachability definition, and `TrailEnds` computes the same set by a frontier.
- `get_hiking_trails`, `rate_trail_head` and `rate_hiking_map` enumerate paths through `rustworkx.all_simple_paths` and are left out.
- Trails.TrailEnds: returns the reachable height-9 nodes as a set of node numbers rather than a list of decoded map indices. The number of them is the same, because `Trails.MapIndexGraphIndex` and `Trails.GraphIndexMapIndex` show decoding is one-to-one. `rustworkx.descendants` returns each node once.
- Day 5 updates with repeated pages are left out. `Apply` and `Order` require the pages-to-positions bijection, which `NewUpdateSpec` gives exactly for distinct pages.
- Convergence of `order` for arbitrary rule sets is left out, since the code does not promise it. One pass is modelled exactly; the samples show it suffices there.
- PageOrderingExamples: each sample update is checked against the sample rules whose two pages both occur in it, not against all 21. A rule with a page absent from the update has no applicable pair, so it never affects that update.
- The unused `rotate` result inside `get_directions`, and debugging prints, are left out.
- WordSearchExamples.CommentLine: the TODO comment at day04/src/main.rs:107-108 says this line "matches 3 times". The code as written counts it twice, both times in the reversed line, and the model follows the code.
