# Advent of Code 2023, days 1 to 21, in Dafny

This project models the solutions in `src/d1.rs` to `src/d21.rs` of a Rust
crate that solves the Advent of Code 2023 puzzles. Each day's file becomes a
Dafny module of the same name (`D1` .. `D21`). The modules share four helper
modules:

- `Wrappers`: the `Option` type and a few sequence folds.
- `Text`: the string operations of the Rust standard library the solutions
  call: `split`, `trim`, `split_whitespace`, `find` and integer parsing and
  printing.
- `Arith`: Rust's truncating signed halving and `rem_euclid`.
- `Euclid`: the `gcd`/`lcm` helpers that days 8 and 20 both define.

The modules follow one pattern throughout:

- A loop in the source becomes a `method` with that loop, proved equal to a
  recursive specification function. Properties are then proved about the
  function as lemmas.
- A parser is paired with a printer or with a reference description of what
  it accepts, and the two are tied by a lemma.
- Every `unwrap`, index out of range or `panic!` of the source is modelled as
  a `None` result. The model's contracts state when that happens.

Three things in the source are modelled with an extra argument:

- A puzzle step that the source runs without limit takes a `fuel` argument:
  day 8 part 1, day 19 and day 20.
- Where the source is wrong (see "## Findings"), the member usually takes a
  boolean argument that selects the code as written or the corrected code:
  `fixed` in day 3 (one flag for both of its corrections), `straddle` in
  day 5, and `skipBack` and `absolute` in day 10 (one flag per correction).
  Day 6 instead has a separate corrected function. The parts the model
  exports use the corrected code.
- Reading the puzzle input from a file is not modelled. Every part takes the
  input's lines as a sequence of strings.

## Model

| member | source | states |
|---|---|---|
| D1.DigitsOf | src/d1.rs:9-17 | the digits found by the character scan are never more than the characters, and each is a decimal digit below 10 |
| D1.DigitsOfEmpty | src/d1.rs:9-17 | the scan finds no digit exactly when no character of the line is a decimal digit |
| D1.LineValueRange | src/d1.rs:7-19 | a line with a digit has a value in 0..99, a line with a single digit d has value 11·d, and the -1 markers are left exactly when no character is a digit |
| D1.CalibrationValue | src/d1.rs:7-19 | the loop that sets `first_char` once and `last_char` on every digit returns ten times the first digit plus the last one (-11 without digits) |
| D1.P1 | src/d1.rs:3-22 | part 1 is the sum of every line's calibration value |
| D1.WordUpTo | src/d1.rs:28-47 | the digit recorded at a position from the first k words is one of 1..k |
| D1.WordAt | src/d1.rs:28-47 | the digit recorded at a position is one of 1..9 |
| D1.WordUpToMeaning | src/d1.rs:43-46 | a recorded digit's word does start at that position, and when no digit is recorded none of the words starts there |
| D1.KeyIndexOfWords | src/d1.rs:28-38 | the first two letters of each digit word name it alone |
| D1.WordsDistinctStarts | src/d1.rs:43-47 | two digit words never start at the same position, so the order in which the HashMap is walked does not change the recorded digits |
| D1.WordAtKey | src/d1.rs:43-47 | a word recorded at i is the one its first two letters name |
| D1.WordAtFound | src/d1.rs:43-47 | any digit word that starts at i is the one recorded at i |
| D1.RewrittenPrefix | src/d1.rs:49-60 | the first n rewritten characters have length n and each is the recorded digit at a word start or the character itself |
| D1.Rewritten | src/d1.rs:49-62 | the rewritten line has the same length as the line, with the digit at each word start and the character itself elsewhere |
| D1.RecordWord | src/d1.rs:44-46 | recording one more word's occurrences keeps the index map equal, at every position, to the digit of the last word so far that starts there |
| D1.WordIndices | src/d1.rs:41-47 | after all nine words a position is in the index map exactly when some digit word starts there, and it holds that word's digit |
| D1.Rewrite | src/d1.rs:40-62 | the copy loop builds exactly the rewritten line |
| D1.NoWordAt | src/d1.rs:43-47 | no digit word is recorded where the first two letters name none |
| D1.EightTwoStarts | src/d1.rs:43-47 | in "eightwo" the words "eight" and "two" are found at 0 and 4 |
| D1.EightTwoQuiet | src/d1.rs:43-47 | in "eightwo" no word is found at 1, 2, 3, 5 or 6 |
| D1.EightTwo | src/d1.rs:40-62 | "eightwo" becomes "8igh2wo" (overlapping words both survive) and is worth 82 |
| D1.EightTwoDigits | src/d1.rs:9-17 | the digits of "8igh2wo" are 8 then 2 |
| D1.P2 | src/d1.rs:24-67 | part 2 is the sum of the values of the rewritten lines |
| D1.SumRewrittenIsP1 | src/d1.rs:64-66 | part 1 applied to the rewritten lines sums the rewritten lines' values |
| D2.SetColour | src/d2.rs:28-33 | a colour word sets exactly its own count; any word other than red, green or blue is a panic |
| D2.DrawsCount | src/d2.rs:18-40 | a line yields one draw per colour token not ending in ',' |
| D2.UnknownColourFails | src/d2.rs:28-32 | an unknown colour anywhere among the count/colour pairs makes the line panic |
| D2.GameExample | src/d2.rs:6-41 | "Game 7: 3 blue, 4 red; 1 red, 2 green" is game 7 with the draws (4,0,3) and (1,2,0) |
| D2.PrependStep | src/d2.rs:35-38 | closing a draw moves it from the rest of the line to the draws already pushed |
| D2.ParseLine | src/d2.rs:7-41 | the token loop for one line yields the game id and its draws, or the panic |
| D2.GatherGames | src/d2.rs:3-45 | for any line parser: the map fails exactly when some line fails to parse, and otherwise holds every line's id |
| D2.Games | src/d2.rs:3-45 | the map fails exactly when some line panics, and otherwise holds the id of every line |
| D2.GetListCubes | src/d2.rs:3-45 | the loop over the lines builds that map, a later line with the same id replacing an earlier one |
| D2.GamesFails | src/d2.rs:6-41 | one line that panics makes the whole parse panic |
| D2.Maxima | src/d2.rs:65-70 | the per-colour maxima start at 0, bound every draw and are each 0 or attained by some draw |
| D2.TotalRemove | src/d2.rs:51-55 | the sum over the games does not depend on which game is taken first, so the HashMap's iteration order does not matter |
| D2.SumGames | src/d2.rs:51-55 | the loop over the map, in any order, adds up every game's contribution |
| D2.GamePower | src/d2.rs:65-71 | one game's power is the product of its per-colour maxima |
| D2.P1 | src/d2.rs:47-58 | part 1 panics exactly when the parse does, and otherwise is the sum of the ids of the games with a draw over 12 red, 13 green or 14 blue |
| D2.P2 | src/d2.rs:60-75 | part 2 panics exactly when the parse does, and otherwise is the sum of the games' powers |
| D2.TotalWithinLimits | src/d2.rs:51-55 | when no game has a draw over the limits part 1 is 0 |
| D3.ScanFacts | src/d3.rs:9-26 | after any prefix of a row the scan keeps its invariant: the pending run is the digits just before the position, every symbol so far is a token at its own column, and (fixed) every earlier digit lies in a number token |
| D3.TokensMatchRow | src/d3.rs:13-25 | with the fix every token is a symbol at its column or a digit run at its true columns |
| D3.TokensWellFormed | src/d3.rs:13-25 | as written or fixed, every token is a non-empty digit run or a symbol at its column |
| D3.SymbolsFound | src/d3.rs:15-17 | every character that is neither a digit nor '.' becomes the token (j, j, ch) |
| D3.DigitsCovered | src/d3.rs:19-25 | with the fix and the row as wide as the first row, every digit lies inside a number token |
| D3.ParseLine | src/d3.rs:6-28 | the inner loop with the `cur_num` buffer yields exactly the row's tokens |
| D3.ParseEngine | src/d3.rs:1-32 | `parse_engine` panics on an empty schematic and otherwise tokenises every row against the first row's width |
| D3.TouchesMeaning | src/d3.rs:62-68 | the fixed adjacency test holds exactly when some digit of the number is next to the symbol |
| D3.EndpointShort | src/d3.rs:62-68 | for numbers of at most four digits the source's endpoint test agrees with the fixed one |
| D3.MiddleDigitMissed | src/d3.rs:62-68 | as written, a '*' over the middle digit of a five-digit number does not touch it; fixed, it does |
| D3.GearHitMeaning | src/d3.rs:115-123 | for a one-column gear the endpoint test is exactly "some digit is next to the gear" |
| D3.RowPartsBound | src/d3.rs:56-80 | each number is added at most once: a row adds at most the sum of its numbers, and exactly that when every number touches a symbol |
| D3.FindSymbol | src/d3.rs:59-77 | the candidate loop with its `break_out` flag reports whether some symbol touches the number |
| D3.SumRow | src/d3.rs:56-80 | the loop over one row's tokens adds exactly that row's part numbers |
| D3.SumParts | src/d3.rs:45-81 | the loop over the rows, with the previous and next rows as neighbours, adds every row's part numbers |
| D3.P1 | src/d3.rs:38-84 | part 1 is the sum of the part numbers, or the panic on an empty schematic |
| D3.AdjacentMeaning | src/d3.rs:109-129 | for a one-column gear the adjacent list holds exactly the number tokens next to it |
| D3.HitsGear | src/d3.rs:115-127 | once more than two numbers are found only the shift -1 is tried; before that, the endpoint test |
| D3.CountAdjacent | src/d3.rs:105-129 | the count and the values of the numbers around a '*' are exact while at most two are adjacent, and the count exceeds two otherwise |
| D3.SumGearRow | src/d3.rs:104-135 | the loop over a row adds the product of the two numbers of each '*' with exactly two neighbours |
| D3.SumGears | src/d3.rs:93-136 | the loop over the rows adds every row's gear ratios |
| D3.P2 | src/d3.rs:86-139 | part 2 is the sum of the gear ratios, or the panic on an empty schematic |
| D3.LastColumnShift | src/d3.rs:19-21 | as written a run that reaches the last column is recorded one column to the left ("..12" gives (1,2)); fixed it keeps (2,3) |
| D3.EngineTwoRows | src/d3.rs:1-32 | a two-row schematic tokenises both rows against the first row's width |
| D3.TwoRowParts | src/d3.rs:45-81 | on a two-row schematic with one number in the second row, part 1 is what that number adds |
| D3.ShiftCountsFarNumber | src/d3.rs:19-21 | as written "12", two columns away from the '*', counts: part 1 of ["*...","..12"] is 12 |
| D3.FixedKeepsFarNumberOut | src/d3.rs:19-21 | fixed, part 1 of ["*...","..12"] is 0 |
| D3.MiddleDigitPart | src/d3.rs:62-68 | as written part 1 of ["..*...","12345."] is 0 |
| D3.FixedMiddleDigitPart | src/d3.rs:62-68 | fixed, part 1 of ["..*...","12345."] is 12345 |
| D4.NumberSet | src/d4.rs:9-15 | the set fails exactly when some token is not an integer, and otherwise holds exactly the tokens' values |
| D4.AfterColon | src/d4.rs:3-7 | `split_line` panics exactly when the text has no ':' |
| D4.ParseCard | src/d4.rs:21-25 | a line without '\|' is a panic |
| D4.ParseCards | src/d4.rs:17-28 | the parse fails exactly when some line does, and otherwise yields one card per line, in order |
| D4.ParseLines | src/d4.rs:17-28 | the loop over the lines yields that parse |
| D4.ParseCardsFails | src/d4.rs:21-25 | one bad line makes the whole parse panic |
| D4.MatchingBounds | src/d4.rs:35 | the matches never exceed either set, and are 0 exactly when the sets are disjoint |
| D4.ScoreDoubles | src/d4.rs:36-38 | no match scores 0, one match scores 1, and every further match doubles the score |
| D4.SumPoints | src/d4.rs:34-39 | the scoring loop adds every card's score |
| D4.P1 | src/d4.rs:30-42 | part 1 panics exactly when the parse does, and otherwise is the sum of the card scores |
| D4.TotalAtLeastCards | src/d4.rs:47-51 | every card keeps its original, so the total is at least the number of cards |
| D4.IncomingNone | src/d4.rs:54-58 | a card that no earlier card's matches reach receives no copies |
| D4.NoMatchesOneCopyEach | src/d4.rs:47-59 | without matches every card stays a single copy |
| D4.AddCopies | src/d4.rs:54-59 | the inner loop adds `cur_cnt` to each of cards i+1 .. i+m that exist, and changes no other card |
| D4.CountCards | src/d4.rs:46-62 | the propagation over the match counts totals every card's copies, at least one per card |
| D4.MatchCounts | src/d4.rs:53 | one match count per card, in order |
| D4.P2 | src/d4.rs:44-63 | part 2 panics exactly when the parse does, and otherwise is the total number of copies, at least the number of cards |
| D5.ChainFollowsStages | src/d5.rs:7-17 | following `get_mapping` from "seed-to-soil" visits the seven sections in order and reaches "end" after exactly seven steps |
| D5.ParseAllMeaning | src/d5.rs:19-23 | a number line parses exactly when every token does, and then holds every token's value in order |
| D5.Classify | src/d5.rs:33-53 | a line after the first is skipped exactly when it is empty |
| D5.StepFails | src/d5.rs:32-54 | one line fails exactly when it is neither empty, a header with a name, nor a line of at least three numbers |
| D5.SectionsFail | src/d5.rs:32-54 | reading the sections panics exactly when some line is not understood |
| D5.AllClassifiedSnoc | src/d5.rs:32-54 | every line is understood exactly when the earlier ones and the last one are |
| D5.SectionsMeaning | src/d5.rs:30-54 | the current section is the last header; a section is in the table exactly when some map line comes under one of its headers, and it then holds those lines in order |
| D5.ReadSections | src/d5.rs:30-54 | the `for_each` that updates the current name and the table line by line reads exactly those sections |
| D5.SectionsStep | src/d5.rs:32-54 | reading one more line is one step of the section fold |
| D5.SectionsFailPrefix | src/d5.rs:32-54 | a line that is not understood makes the whole read panic |
| D5.ParseLines | src/d5.rs:25-57 | `parse_lines` yields the seeds of the first line's text after ':' and the section table, or panics on an empty input, a first line without ':', a bad seed or a bad line |
| D5.FirstMatchAt | src/d5.rs:68-78 | a value is moved by the first map line whose source covers it |
| D5.FirstMatchNone | src/d5.rs:68-78 | a value that no map line covers keeps its value |
| D5.PassFlagged | src/d5.rs:70 | a value already moved in this section is not moved again |
| D5.FirstMatchSnoc | src/d5.rs:68-78 | a map line added after the others only matters for values none of them covers |
| D5.PassIsFirstMatch | src/d5.rs:68-78 | the loop with the `cur_mod` flags moves a value by the first covering line and flags it exactly when some line covers it |
| D5.MoveValues | src/d5.rs:65-80 | the nested loops of one section move every value as the first covering line says, keeping the count |
| D5.Locations | src/d5.rs:63-82 | one location per seed |
| D5.MinOf | src/d5.rs:84 | the minimum of a non-empty list is one of its elements and no element is below it |
| D5.Part1Meaning | src/d5.rs:59-85 | part 1 answers exactly when the input parses, all seven sections are present and there is a seed, and then gives the location of some seed with no seed's location below it |
| D5.P1 | src/d5.rs:59-85 | the loop along the chain until "end" computes that answer |
| D5.Kept | src/d5.rs:103-130 | every range keeps its place in the list after a map line |
| D5.ClearFlags | src/d5.rs:132-134 | clearing the flags keeps the number of ranges |
| D5.SeedRangesAt | src/d5.rs:98-100 | the i-th pair of the seed line gives the i-th range (start, start+len-1, unmoved), and no full pair is left out |
| D5.Starts | src/d5.rs:138-143 | one start per range |
| D5.CutRange | src/d5.rs:105-128 | the branches for one map line and one range: inside the source it moves, a range over the source's start or end is cut and the moved part pushed |
| D5.PushedStep | src/d5.rs:104-129 | the ranges pushed for one more range are those pushed so far plus its own |
| D5.ApplyRuleInPlace | src/d5.rs:104-129 | the loop over the ranges for one map line updates the ranges in place and appends the pushed pieces |
| D5.ApplyStage | src/d5.rs:103-134 | one section applies each map line to the list in turn and then clears the flags |
| D5.ReadSeedRanges | src/d5.rs:98-100 | the `step_by(2)` loop over a non-empty seed line yields the seed ranges |
| D5.P2 | src/d5.rs:91-144 | `p2` panics on a failed parse, an empty seed line or a missing section, and otherwise answers the lowest start after all sections |
| D5.Lowest2 | src/d5.rs:102-143 | after parsing, the loop along the chain gives the lowest start when all seven sections are present and panics otherwise |
| D5.CutWellFormed | src/d5.rs:105-128 | cutting a non-empty range gives non-empty pieces |
| D5.CutBackward | src/d5.rs:105-128 | with the straddling range cut, every value in the pieces comes from a value of the range, moved and flagged as one value would be by that map line |
| D5.CutForward | src/d5.rs:105-128 | with the straddling range cut, every value of the range is in the piece where that map line takes it, with the same flag |
| D5.PushedFrom | src/d5.rs:123-126 | each pushed range comes from some range of the list |
| D5.PushedHas | src/d5.rs:123-126 | whatever a range pushes is in the list of pushed ranges |
| D5.ApplyRuleWellFormed | src/d5.rs:104-129 | a map line keeps the ranges non-empty |
| D5.ApplyBackward | src/d5.rs:104-129 | with the cut, a value held after one map line is the image of a value held before |
| D5.ApplyForward | src/d5.rs:104-129 | with the cut, the image of a value held before one map line is held after it |
| D5.ApplyRulesWellFormed | src/d5.rs:103-130 | a section's map lines keep the ranges non-empty |
| D5.ApplyRulesForward | src/d5.rs:103-130 | with the cut, each value is held after a section's lines where the single-value pass of part 1 sends it |
| D5.ApplyRulesBackward | src/d5.rs:103-130 | with the cut, each value held after a section's lines comes by that pass from one held before |
| D5.RangesWellFormed | src/d5.rs:102-136 | after any number of sections the ranges stay non-empty and unflagged |
| D5.ChainForward | src/d5.rs:102-136 | with the cut, every seed value's location is held by some range after the sections |
| D5.ChainBackward | src/d5.rs:102-136 | with the cut, every value held after the sections is the location of some seed value |
| D5.StageBackward | src/d5.rs:103-134 | with the cut, every value held after one section is where the section takes some value held before |
| D5.RangesCount | src/d5.rs:102-136 | the number of ranges never drops, and an empty list stays empty |
| D5.RulesCount | src/d5.rs:103-130 | a section's map lines never drop a range and add none to an empty list |
| D5.SeedRangesClear | src/d5.rs:98-100 | the seed ranges start unflagged |
| D5.LowestStartMeaning | src/d5.rs:91-144 | with the cut and positive range lengths, part 2 answers exactly when there is a seed pair, and the answer is the location of some seed value with no seed value's location below it |
| D5.StraddleMissed | src/d5.rs:114-127 | as written the range 1..10, which holds the whole source 5..6 of "0 5 2", is left unmoved although that line moves 5 to 0; cut, its middle goes to 0..1 |
| D5.StraddleOnly | src/d5.rs:114-127 | the as-written and cut readings differ exactly on an unflagged range that holds a whole non-empty source with values on both sides |
| D5.TwoSections | src/d5.rs:7-17 | an almanac with the given lines in the first two sections has all seven sections |
| D5.TwoSectionsLines | src/d5.rs:7-17 | the lines of each of its sections |
| D5.EmptyRulePushesNothing | src/d5.rs:114-127 | a map line of length 0 moves nothing |
| D5.LaterSectionsKeep | src/d5.rs:102-136 | the later sections of that almanac leave unflagged ranges as they are |
| D5.EmptyRuleStage | src/d5.rs:103-134 | a section whose only line has length 0 leaves unflagged ranges as they are |
| D5.OneLineStage | src/d5.rs:103-134 | a one-line section keeps the ranges, appends the pushed ones and clears the flags |
| D5.AsWrittenFirst | src/d5.rs:114-127 | as written the range 5..14 straddles 7..8 of "100 7 2" and stays |
| D5.AsWrittenSecond | src/d5.rs:114-127 | as written "0 7 8" cuts 5..14 into 5..6 and 0..7 |
| D5.CutFirst | src/d5.rs:114-127 | with the cut, "100 7 2" sends 7..8 to 100..101 |
| D5.CutSecond | src/d5.rs:114-127 | with the cut, "0 7 8" then sends 9..14 to 2..7 |
| D5.CounterexampleSections | src/d5.rs:102-136 | the ranges after the first two sections of the example, both ways |
| D5.CounterexampleRanges | src/d5.rs:102-136 | the ranges after all seven sections of the example, both ways |
| D5.AsWrittenAnswer | src/d5.rs:138-143 | as written the example answers 0 |
| D5.CutAnswer | src/d5.rs:138-143 | with the cut the example answers 2 |
| D5.StraddleUnderReports | src/d5.rs:114-127 | seeds "5 10" with "100 7 2" then "0 7 8": as written the answer is 0, below every seed value's location (all at least 2); with the cut it is 2 |
| D6.DistSymmetric | src/d6.rs:32-34 | holding h or t-h goes equally far |
| D6.DistStep | src/d6.rs:32-34 | one more millisecond of holding adds t-2h-1 to the distance |
| D6.DistMonotone | src/d6.rs:36-45 | on the rising half [0, t/2] a longer hold goes strictly further, which is what the binary search relies on |
| D6.NearEnd | src/d6.rs:52-56 | the two middle holds t/2 and t/2+1 tie exactly when t is odd |
| D6.ThresholdFrom | src/d6.rs:36-49 | the least winning hold of the rising half lies between the start and t/2+1 |
| D6.ThresholdFromLeast | src/d6.rs:36-49 | no hold below the threshold wins, and the threshold wins when it is in the rising half |
| D6.ThresholdSplits | src/d6.rs:36-49 | in the rising half a hold wins exactly when it is at least the threshold |
| D6.BeatsInterval | src/d6.rs:51-58 | over the whole race a hold wins exactly when it lies in [m, t-m], m the threshold |
| D6.ThresholdUnique | src/d6.rs:36-49 | any split point of the rising half is the threshold |
| D6.CountInterval | src/d6.rs:51-58 | the number of winning holds below n, in terms of the threshold |
| D6.NumWaysByThreshold | src/d6.rs:51-58 | the ways to win are t-2m+1 for a threshold m in the rising half, and none otherwise |
| D6.SearchThreshold | src/d6.rs:36-49 | the binary search with its `<= dist` adjustment ends on the least winning hold of the rising half |
| D6.SourceWaysValue | src/d6.rs:51-58 | the mirrored count `half_num_ways * 2 + ways_near_end` is t-2m+1 for every m |
| D6.ComputeNumWays | src/d6.rs:31-59 | `compute_num_ways` as written returns t-2m+1 for the threshold m |
| D6.SourceWaysAgrees | src/d6.rs:51-58 | as written the count is right whenever the record can be beaten, and for every odd race time |
| D6.SourceWaysEvenUnbeatable | src/d6.rs:51-58 | for an even race time whose record cannot be beaten the source returns -1 where there are no ways |
| D6.TimeTwoRecordOne | src/d6.rs:51-58 | time 2 with record 1 gives -1 as written and 0 ways |
| D6.CountWays | src/d6.rs:31-59 | with the unbeatable case guarded the count is the number of winning holds |
| D6.Fields | src/d6.rs:3-9 | the tokens after ':' exist exactly when the line has a ':' |
| D6.ParseInts | src/d6.rs:7-9 | the numbers fail exactly when some token is not an integer, and otherwise are every token's value in order |
| D6.ConcatExample | src/d6.rs:12-21 | kerning is ignored: "7 15 30" reads as 71530 |
| D6.ProductWaysPositive | src/d6.rs:61-70 | when every race can be won the product is at least one |
| D6.AllNat | src/d6.rs:65 | the times are accepted exactly when none is negative, unchanged |
| D6.MultiplyWays | src/d6.rs:63-69 | the loop over the zipped races multiplies every race's ways |
| D6.P1 | src/d6.rs:61-70 | part 1 panics exactly when the two lines do not parse, and otherwise is the product of the ways over the races zipped to the shorter line |
| D6.P2 | src/d6.rs:72-75 | part 2 panics on fewer than two lines, and otherwise is the number of ways of the single race read with the kerning removed |
| D7.Strength | src/d7.rs:33-39 | a card's strength exists exactly when it is one of the fourteen cards, and is its position in the reversed list |
| D7.StrengthIsPosition | src/d7.rs:26-39 | the cards are all different, so each one's strength is its position: the joker 0, the ace 13 |
| D7.CountsOfMeaning | src/d7.rs:42-45 | the fold counts each card of the hand as often as it occurs, and no other card |
| D7.MaxOf | src/d7.rs:49 | the largest count of the map, 0 when it is empty |
| D7.MaxUnique | src/d7.rs:49 | the largest count is unique |
| D7.Classify | src/d7.rs:64-77 | with at most five of a card the type is in 0..=6 |
| D7.SplitJokers | src/d7.rs:47-48 | the counts left after taking out the jokers are all positive |
| D7.MaxBump | src/d7.rs:55-65 | adding the jokers to a most frequent card makes its count plus the jokers the new maximum |
| D7.MaxKey | src/d7.rs:56-61 | some card holds the largest count |
| D7.HoldingSwap | src/d7.rs:56-61 | which of two most frequent cards the jokers join does not change how many cards hold a given count |
| D7.ValuesSwap | src/d7.rs:56-61 | either choice leaves the same counts present |
| D7.TypeWithIndependent | src/d7.rs:56-77 | the type does not depend on which most frequent card the HashMap's order gives the jokers to |
| D7.MaxCount | src/d7.rs:49 | the loop over the counts finds the largest, 0 for none |
| D7.CountCards | src/d7.rs:42-45 | the fold counts the cards of the hand |
| D7.AddJokers | src/d7.rs:55-62 | the jokers go to a card whose count is the maximum, and nothing else changes |
| D7.HandType | src/d7.rs:41-78 | `get_hand_type` returns the type of the hand, all-joker hands included |
| D7.TwoCounts | src/d7.rs:69 | two different cards together occur at most as often as the hand is long |
| D7.TypeBound | src/d7.rs:41-78 | a hand of at most five cards has a type in 0..=6, and a hand of jokers only is five of a kind |
| D7.Cmp | src/d7.rs:80 | `usize::cmp` says Equal and Less exactly when the numbers are equal or smaller |
| D7.CompareCards | src/d7.rs:85-92 | the card-by-card comparison never panics on hands of known cards |
| D7.TiedCons | src/d7.rs:85-92 | two hands tie card by card exactly when their first cards are the same known card and the rest tie |
| D7.CompareCardsEqual | src/d7.rs:85-92 | the card comparison says Equal exactly when the hands tie card by card |
| D7.CompareCardsFlip | src/d7.rs:85-92 | swapping the hands flips the card comparison, panics included |
| D7.CompareEqual | src/d7.rs:25-93 | the comparator says Equal exactly when the types tie and so does every compared card |
| D7.CompareFlip | src/d7.rs:25-93 | swapping the hands flips the comparator's answer, panics included |
| D7.CompareHands | src/d7.rs:80-92 | the comparator's loop with its early return computes that comparison |
| D7.CompareCardsTrans | src/d7.rs:85-92 | the card comparison is transitive on hands of the same length of known cards |
| D7.LexFacts | src/d7.rs:80-92 | on hands of n known cards the order never panics, flips with its arguments and ties only on equal hands |
| D7.LexRefl | src/d7.rs:80-92 | every hand of known cards ties with itself |
| D7.LexTrans | src/d7.rs:80-92 | the order is transitive on hands of n known cards |
| D7.LeFacts | src/d7.rs:25-93 | on hands of n known cards the comparator never panics and is total, reflexive and antisymmetric |
| D7.LeTrans | src/d7.rs:25-93 | the comparator is transitive on hands of n known cards |
| D7.ChainedIsSorted | src/d7.rs:95-99 | a list where each hand is at most the next is sorted |
| D7.SwapStep | src/d7.rs:95-99 | one swap of the insertion keeps both sorted runs and the link around the gap |
| D7.JoinRuns | src/d7.rs:95-99 | the two sorted runs join once the gap is closed |
| D7.Insert | src/d7.rs:95-99 | moving a[i] down past every greater hand permutes the array and sorts its first i+1 hands |
| D7.SwapMultiset | src/d7.rs:95-99 | a swap keeps the same hands |
| D7.SortHands | src/d7.rs:95-99 | `sort_hands` returns the same hands, sorted by the comparator |
| D7.RankingUnique | src/d7.rs:95-99 | two sorted orders of the same distinct hands of n known cards are the same list, so the unstable sort's choice does not matter |
| D7.SameHead | src/d7.rs:95-99 | two sorted orders of the same distinct hands start with the same hand |
| D7.WinningsAppend | src/d7.rs:101-107 | putting s below t lifts every rank of t by the length of s |
| D7.GetTotalWinnings | src/d7.rs:101-107 | the fold with its running rank sums each bid times its rank |
| D7.WinningsDetermined | src/d7.rs:101-107 | the winnings of distinct hands do not depend on which sorted order the sort produced |
| D7.Jokered | src/d7.rs:11-16 | with jokers on, every 'J' becomes 'X' and every other card stays |
| D7.ParseLines | src/d7.rs:4-23 | the parse fails exactly when some line does, and otherwise yields every line's hand and bid in order |
| D7.Solve | src/d7.rs:109-119 | both parts answer exactly when every line parses and the hands are comparable, and give the winnings of a sorted order of the hands |
| D7.P1 | src/d7.rs:109-113 | part 1 is those winnings with 'J' as a jack |
| D7.P2 | src/d7.rs:115-119 | part 2 is those winnings with 'J' as a joker |
| D8.ParseNode | src/d8.rs:8-12 | a node line parses exactly when it has four tokens with the third at least four and the fourth at least three characters long, and then both successors have three characters |
| D8.NetworkOf | src/d8.rs:7-13 | the network of lines 2.. parses exactly when every node line does |
| D8.NetworkLookup | src/d8.rs:7-13 | a node is in the network exactly when some line declares it, and it holds the last such line's successors |
| D8.NetworkWith | src/d8.rs:7-13 | for any line parser: the network of lines 2.. parses exactly when every node line does |
| D8.NetworkLookupWith | src/d8.rs:7-13 | for any line parser: a node is in the network exactly when some line declares it, and it holds the last such line's successors |
| D8.NetworkStep | src/d8.rs:7-13 | each further node line inserts its declaration into the network built so far |
| D8.ParseLines | src/d8.rs:3-16 | `parse_lines` yields the instructions of the first line and that network |
| D8.NetworkFails | src/d8.rs:7-13 | one bad node line makes the whole parse panic |
| D8.Next | src/d8.rs:26-35 | a move from a node in the network goes to one of its two successors and keeps the pointer inside the instructions |
| D8.NextChoice | src/d8.rs:28-32 | 'L' goes left and any other instruction right; in the strict walk of `compute_loops` an instruction other than 'L' or 'R' panics |
| D8.RunPrefix | src/d8.rs:25-36 | a walk that gets k moves far got every shorter distance too |
| D8.RunPointer | src/d8.rs:34 | after k moves the instruction pointer is k modulo the number of instructions |
| D8.ReachesZZZUnique | src/d8.rs:25-36 | the step count at which the walk from "AAA" first stands on "ZZZ" is unique |
| D8.StepsP1 | src/d8.rs:18-39 | `calculate_steps_p1`, stopped after a move budget, answers the first step count at "ZZZ"; no answer means "ZZZ" is not reached within the budget |
| D8.NeverAfterFailure | src/d8.rs:26 | once the walk panics on a missing node, it never reaches "ZZZ" |
| D8.FreshPrefix | src/d8.rs:97-103 | a walk whose first k states are all different has every shorter prefix all different too |
| D8.StopUnique | src/d8.rs:79-105 | the walk stops at one point only: the first repeated state, or a failure before it |
| D8.LoopsToUnique | src/d8.rs:65-106 | the loop length of a start node is unique |
| D8.NoLoops | src/d8.rs:90-100 | there is no loop length when the walk panics or meets no 'Z' node before repeating |
| D8.ZStep | src/d8.rs:93-95 | how the first step at a 'Z' node evolves with one more move |
| D8.FreshStep | src/d8.rs:97-103 | a state not yet in `visited` keeps the walk's states all different |
| D8.Move | src/d8.rs:80-90 | one move looks up the node (panicking when it is missing) and follows 'L' to the left successor and 'R' to the right one; any other instruction panics |
| D8.EndsStep | src/d8.rs:92-94 | the list of step counts at 'Z' nodes stays empty until the first such step and then starts with it |
| D8.FailsNext | src/d8.rs:80-90 | a move that panics (missing node, no instructions, an instruction other than 'L' or 'R') after fresh moves is the point where `compute_loops` fails |
| D8.KeyNext | src/d8.rs:80-97 | a successful move records the node reached with the instruction index just used |
| D8.VisitedStep | src/d8.rs:103 | `visited` holds exactly the states seen so far |
| D8.ComputeLoops | src/d8.rs:65-106 | `compute_loops` returns the first step count at a node ending in 'Z' before the first repeated state; otherwise it panics (a missing node, an instruction other than 'L' or 'R', or no 'Z' node) |
| D8.LoopsPositive | src/d8.rs:81 | a loop length is at least one |
| D8.StartNodes | src/d8.rs:57-59 | the start nodes are exactly the nodes ending in 'A' |
| D8.AllLoops | src/d8.rs:57-61 | one positive loop length per start node, or the panic of one start node's walk |
| D8.StepsP2 | src/d8.rs:56-63 | the least-common-multiple fold is a positive common multiple of every start node's loop length; it panics when there is no start node or a walk panics |
| D8.P1 | src/d8.rs:108-111 | part 1 panics on a bad parse; an answer is the step count at which the walk reaches "ZZZ", and no answer means it does not within the budget |
| D8.P2 | src/d8.rs:113-116 | part 2 panics on a bad parse, and an answer is a common multiple of every start node's loop length |
| Arith.Half | src/d18.rs:88-89 | Rust's signed `/ 2` rounds toward zero: twice the result is within one of the value, on the zero side |
| Arith.HalfOdd | src/d10.rs:81 | halving commutes with negation |
| Arith.Wrap | src/d21.rs:46 | `rem_euclid` gives an index in [0, m) and leaves indices already in range alone |
| Arith.WrapUnique | src/d21.rs:46 | the remainder is the unique r in [0, m) with x = m·q + r |
| Arith.WrapPeriodic | src/d21.rs:46 | moving by m in either direction wraps to the same index |
| Arith.WrapSucc | src/d8.rs:34 | advancing a wrapped index by one wraps like advancing the original |
| Euclid.EuclidStep | src/d8.rs:41-46 | Euclid's step keeps the common divisors of a and b |
| Euclid.GcdIsGreatest | src/d8.rs:41-46 | `gcd` divides both arguments and every common divisor divides it |
| Euclid.GcdPositive | src/d8.rs:41-46 | `gcd` is zero only for two zeros |
| Euclid.Lcm2IsCommonMultiple | src/d8.rs:51 | one step `lcm * x / gcd(lcm, x)` is a common multiple of both, positive for positive arguments, and fails only on two zeros |
| Euclid.LcmOfIsCommonMultiple | src/d8.rs:48-54 | the fold over positive numbers gives a positive number that every element divides |
| Euclid.LcmOfFails | src/d8.rs:48-54 | once the fold divides by zero it stays failed |
| Euclid.Lcm | src/d8.rs:48-54 | the loop computes that fold |
| D9.Diffs | src/d9.rs:18-23 | the difference row is one shorter, with entry i equal to s[i+1] - s[i] |
| D9.Table | src/d9.rs:14-28 | the table starts with the input row, has at least two rows and ends with an all-zero row |
| D9.TableShape | src/d9.rs:17-28 | each row is the difference row of the one above, and no row between the input and the last is all zero |
| D9.DiffsOfReverse | src/d9.rs:32-35 | the differences of a reversed (and possibly negated) row are the reversed differences, negated |
| D9.AllZeroScaleReverse | src/d9.rs:25 | reversing and negating a row does not change whether it is all zero |
| D9.ConsRow | src/d9.rs:30-40 | peeling the first row off both folds |
| D9.FlatEnds | src/d9.rs:30-40 | two rows without differences, the first ending where the second starts, extrapolate forward and backward to the same value |
| D9.ReverseForward | src/d9.rs:30-40 | extrapolating a reversed, possibly negated row forward gives the backward value, negated alike |
| D9.BackwardIsReversedForward | src/d9.rs:30-40 | the previous value of a row is the next value of the reversed row |
| D9.TwoRows | src/d9.rs:30-40 | with two rows, the forward fold adds the last entries and the backward fold subtracts the first ones |
| D9.ConstantRow | src/d9.rs:13-43 | a constant row of length at least two extrapolates to the same constant both ways |
| D9.DiffRow | src/d9.rs:18-23 | the inner loop builds the difference row |
| D9.BuildTable | src/d9.rs:14-28 | the loop builds the table row by row until a row is all zero |
| D9.TableStep | src/d9.rs:17-28 | one step of the table: it stops at an all-zero difference row and otherwise goes on with a shorter row |
| D9.GetNextNum | src/d9.rs:13-43 | `get_next_num` returns the extrapolated next value, or the previous one when `rev`; an empty row met in the backward fold panics |
| D9.FoldRowFirsts | src/d9.rs:32-35 | the backward loop over the rows computes the backward extrapolation, panicking on an empty row |
| D9.SumRowLasts | src/d9.rs:36-39 | the forward loop over the rows computes the forward extrapolation, panicking on an empty row |
| D9.FoldFirstsEmptyRow | src/d9.rs:33-35 | any empty row in the table makes the backward fold's `first().unwrap()` panic |
| D9.ParseInts | src/d9.rs:5-7 | a row parses exactly when every token is an integer, and then holds their values in order |
| D9.ParseSpec | src/d9.rs:1-11 | the parse fails exactly when some line does, and otherwise holds one row per line |
| D9.ParseLines | src/d9.rs:1-11 | the loop over the lines yields that parse |
| D9.SumOfStep | src/d9.rs:47 | the sum over the rows is the first row's value plus the sum over the rest |
| D9.SumRows | src/d9.rs:47 | the iterator sum adds every row's extrapolated value |
| D9.Solve | src/d9.rs:45-53 | part 1 (forward) and part 2 (backward) panic on a bad parse and otherwise sum the extrapolated values |
| D9.Part2ByReversal | src/d9.rs:50-53 | part 2 equals part 1 on the reversed rows |
| D10.InsertIntoAdj | src/d10.rs:3-18 | when both neighbours lie in the m-by-m square they are appended, in order, to x's list; otherwise nothing changes, and no other cell's list changes |
| D10.PipeEnds | src/d10.rs:28-39 | exactly the six pipes and 'S' (read as '\|') join two different cells next to their own |
| D10.ScanLine | src/d10.rs:26-43 | the character loop of one row performs the scan of that row, or the panic on an unknown character |
| D10.ScanCharsFails | src/d10.rs:41 | once a character is rejected the rest of the row does not matter |
| D10.ParseLines | src/d10.rs:20-47 | `parse_lines` performs the scan of every row |
| D10.ScanRowsFails | src/d10.rs:41 | once a character is rejected the remaining rows do not matter |
| D10.ValidStep | src/d10.rs:28-42 | the characters read so far are valid exactly when the earlier ones were and this one is a pipe, 'S' or '.' |
| D10.AdjStep | src/d10.rs:28-40 | reading a valid character records exactly its own entry |
| D10.StartStep | src/d10.rs:35-39 | reading an 'S' makes it the start; any other character keeps the start |
| D10.ScanCharsMeaning | src/d10.rs:26-43 | a row is read exactly when its characters are valid, and the lists and the start then record what it holds |
| D10.ScanRowsMeaning | src/d10.rs:20-47 | the parse panics exactly on an unknown character; otherwise every in-range pipe has its two neighbours listed and the start is the last 'S' |
| D10.InListed | src/d10.rs:62-65 | every listed neighbour is among the listed cells, which bounds the walk |
| D10.FirstOpen | src/d10.rs:62-76 | the first neighbour the walk may enter is not yet visited (and, with `skipBack`, not the cell it came from), and every neighbour before it is excluded; none when all are |
| D10.PathAreaSnoc | src/d10.rs:71 | the shoelace sum grows by one cross term per cell entered |
| D10.WalkPathFacts | src/d10.rs:61-78 | the walk enters only fresh cells, each listed by the cell before and each once, and stops the first time it enters the start |
| D10.PolygonOf | src/d10.rs:80-85 | the boundary is the number of cells entered, and with the area taken absolute (the correction) it is never negative and is half the absolute shoelace sum |
| D10.FindOpen | src/d10.rs:62-76 | the inner `for ... break` finds that first open neighbour |
| D10.WalkStep | src/d10.rs:61-78 | one round of the do-while extends the path by the cell entered, or ends it at the start |
| D10.ProcessPolygon | src/d10.rs:49-86 | `process_polygon` walks until it is back at the start, halves the area and applies Pick's theorem; with `skipBack` it never steps straight back, with `absolute` it takes the area absolute, with neither it is the code as written |
| D10.Solve | src/d10.rs:88-97 | both parts run the walk from the parsed start |
| D10.P1 | src/d10.rs:88-92 | part 1 is half the loop length, never negative |
| D10.P2 | src/d10.rs:94-97 | part 2 is the number of enclosed cells by Pick's theorem |
| D10.CornerEntriesTop | src/d10.rs:28-39 | the lists of the example's top row |
| D10.CornerEntriesMiddle | src/d10.rs:28-39 | the lists of the example's middle row |
| D10.CornerEntriesBottom | src/d10.rs:28-39 | the lists of the example's bottom row |
| D10.CornerGridChars | src/d10.rs:28-42 | the example grid is valid and its only 'S' is at (1,2) |
| D10.CornerGridParse | src/d10.rs:20-47 | the example parses with the start at (1,2) and each loop cell listing its two neighbours |
| D10.SourceWalkStepsBack | src/d10.rs:61-78 | as written the walk goes down from 'S' into 'J', whose first neighbour is the unvisited start: it steps straight back after two cells |
| D10.FixedWalkGoesRound | src/d10.rs:61-85 | the walk that never steps back goes round all eight cells; the signed area is -8, so only the absolute value gives the one enclosed cell |
| D10.CornerGridFinding | src/d10.rs:88-97 | on ["F-7","\|.S","L-J"] the source finds a two-cell loop (part 1 gives 1); the corrected walk finds all eight cells (4 and 1) |
| D10.TallEntriesTop | src/d10.rs:28-39 | the lists of the top two rows of the clockwise example |
| D10.TallEntriesBottom | src/d10.rs:28-39 | the lists of the bottom two rows of the clockwise example |
| D10.TallGridChars | src/d10.rs:28-42 | the clockwise example is valid and its only 'S' is at (1,2) |
| D10.TallGridParse | src/d10.rs:20-47 | the clockwise example parses with the start at (1,2) and each of the ten loop cells listing its two neighbours |
| D10.TallWalkUpper | src/d10.rs:61-78 | from the bottom-left corner the walk goes up the left side and along the top back into the start |
| D10.TallWalkBottom | src/d10.rs:61-78 | from the bottom-right corner the walk goes left along the bottom, then up and round to the start |
| D10.TallWalkClockwise | src/d10.rs:61-78 | as written or corrected, the walk from 'S' goes down first and round all ten loop cells, clockwise |
| D10.TallArea | src/d10.rs:71 | the shoelace sum of that clockwise walk is -12 |
| D10.TallGridSignedArea | src/d10.rs:80-85 | as written, on ["F-7.","\|.S.","\|.\|.","L-J."] the area stays -6 and Pick's theorem reports -10 enclosed cells |
| D10.TallGridAbsoluteArea | src/d10.rs:80-85 | with the area taken absolute the same grid gives area 6 and the 2 enclosed cells, with or without the step-back correction |
| D11.EmptyRowsBelow | src/d11.rs:11-15 | the empty rows are exactly the rows made of '.' only, in ascending order |
| D11.ColumnEmpty | src/d11.rs:18 | a column is reported empty only when every row has a '.' there, and on rows wide enough the answer is exactly that; a row too short for the column is a panic |
| D11.EmptyColsBelow | src/d11.rs:17-21 | the empty columns are exactly those reported empty, ascending, and the search panics exactly when some column check does |
| D11.GetAllEmptyRowsCols | src/d11.rs:7-24 | `get_all_empty_rows_cols` yields the empty rows, then the empty columns of the first row's width |
| D11.EmptyRowsLoop | src/d11.rs:11-15 | the row loop collects those empty rows |
| D11.EmptyColsLoop | src/d11.rs:17-21 | the column loop collects those empty columns, or the panic |
| D11.EmptyColsFail | src/d11.rs:18 | one column check that panics makes the whole search panic |
| D11.CountBelow | src/d11.rs:34-36 | the count of empty lines below a coordinate is at most their number |
| D11.CountBelowMonotone | src/d11.rs:34-36 | that count grows with the coordinate |
| D11.ExpandOrder | src/d11.rs:33-36 | expansion keeps coordinates strictly in order, and a factor of 1 changes nothing |
| D11.RowGalaxiesSpec | src/d11.rs:31-39 | a row's galaxies are exactly its '#' positions, left to right |
| D11.GalaxiesOfSpec | src/d11.rs:30-40 | the galaxies are exactly the '#' positions, in row-major order |
| D11.Shifted | src/d11.rs:33-37 | each galaxy is moved by the expansion of its row and column |
| D11.ShiftedKeepsOrder | src/d11.rs:30-40 | the expanded galaxies keep the row-major order |
| D11.ScanRow | src/d11.rs:31-39 | one row of the loop appends that row's galaxies, shifted |
| D11.ShiftedSnoc | src/d11.rs:37 | shifting one more galaxy appends its shifted position |
| D11.ShiftedAppend | src/d11.rs:30-40 | shifting distributes over the rows |
| D11.GetAllGalaxies | src/d11.rs:26-43 | `get_all_galaxies` lists every galaxy's expanded position, or the panic of the empty-column search |
| D11.PairsBelowValue | src/d11.rs:48-49 | the pairs whose first index is below i number i(2g-1-i)/2 |
| D11.AllPairsCount | src/d11.rs:48-56 | g galaxies make g(g-1)/2 pairs |
| D11.ValueSumRemove | src/d11.rs:64 | the sum of the map's values does not depend on which key is taken first |
| D11.ValueSumInsert | src/d11.rs:54 | inserting a fresh key adds its value to the sum |
| D11.DistancesStep | src/d11.rs:49-55 | recording pair (i+1, j+1) adds a key not yet present |
| D11.DistancesUnstep | src/d11.rs:49-55 | the last pair recorded in a row holds its distance |
| D11.NoPairs | src/d11.rs:46 | before the loop the map is empty |
| D11.SoFarSize | src/d11.rs:48-56 | a map holding exactly the pairs so far has one entry per pair |
| D11.SoFarSum | src/d11.rs:48-56 | its values add up to the distances of those pairs |
| D11.AddRow | src/d11.rs:49-55 | the inner loop records the pairs (i+1, j+1) for every j > i |
| D11.NextRow | src/d11.rs:48-56 | finishing row i starts row i+1 |
| D11.GetAllPairwiseDistances | src/d11.rs:45-59 | one entry per pair of galaxies, keyed by their 1-based positions and holding their Manhattan distance, g(g-1)/2 entries whose values sum to all pair distances |
| D11.SumValues | src/d11.rs:64 | `.values().sum()` adds every distance, in whatever order the map gives |
| D11.Solve | src/d11.rs:61-71 | both parts panic exactly when the empty-column search does, and otherwise give the sum of the pair distances after expansion |
| D11.P1 | src/d11.rs:61-65 | part 1 is that sum with every empty line doubled |
| D11.P2 | src/d11.rs:67-71 | part 2 is that sum with every empty line a million wide |
| D12.ParseAll | src/d12.rs:21-27 | the record parses exactly when every comma-separated piece is a number, and then holds every piece's value in order |
| D12.NatStrings | src/d12.rs:60-63 | each remaining group is printed as its decimal text |
| D12.JoinNonEmpty | src/d12.rs:60-64 | joining pieces whose first is non-empty gives non-empty text |
| D12.RecordsRoundTrip | src/d12.rs:18-28 | printing the groups with ',' between them and parsing the text again gives the same groups |
| D12.Count | src/d12.rs:29-73 | a row with u unknown springs has at most 2^u arrangements (each unknown spring splits the count in two), so at most one without unknown springs |
| D12.FindNumArrangements | src/d12.rs:17-74 | `find_num_arrangements` panics exactly when the record is not a number list; otherwise it returns the number of fillings of the unknown springs whose damaged runs are the groups |
| D12.ReparsedTail | src/d12.rs:58-65 | the recursive call that passes the remaining groups as text counts the arrangements of those groups |
| D12.WaysNoGroups | src/d12.rs:33-34 | without groups only the all-working filling counts, and only when no spring is known damaged |
| D12.WaysShort | src/d12.rs:35-38 | a row too short for the groups and their separators has no filling |
| D12.WaysBlock | src/d12.rs:42-65 | inside a damaged run the next springs of the group must be damaged and the one after working (or the row ends); the count then goes on with the remaining groups |
| D12.CountIsWays | src/d12.rs:16-74 | `find_num_arrangements` counts exactly the fillings of the unknown springs whose damaged runs are the groups |
| D12.WaysBound | src/d12.rs:68-73 | there are at most 2^u fillings of u unknown springs |
| D12.Copies | src/d12.rs:80-86 | n copies of the text |
| D12.JoinCopiesSnoc | src/d12.rs:80-86 | one more round appends a separator and a copy |
| D12.DupSpringAndRecord | src/d12.rs:76-89 | `dup_spring_and_record` joins five copies of the row with '?' and five of the record with ',' |
| D12.JoinCopiesLength | src/d12.rs:80-86 | the unfolded row is five times as long plus the four separators |
| D12.ParseAllAppend | src/d12.rs:21-27 | parsing two runs of pieces one after the other parses each |
| D12.UnfoldedRecords | src/d12.rs:84-85 | a non-empty record unfolded n times parses to its groups repeated n times |
| D12.ParseLine | src/d12.rs:8-10 | a line parses exactly when it has at least two whitespace-separated tokens |
| D12.ParseRows | src/d12.rs:3-14 | the parse fails exactly when some line does, and otherwise holds every line's row and record in order |
| D12.Total | src/d12.rs:91-112 | the fold over the rows answers exactly when every (unfolded, in part 2) record parses, and then gives the number of fillings of every row, summed |
| D12.P1 | src/d12.rs:91-100 | part 1 panics exactly when a line has fewer than two tokens or a record is not a number list; otherwise it is the sum over the rows of their fillings |
| D12.P2 | src/d12.rs:102-112 | part 2 panics exactly when a line has fewer than two tokens or an unfolded record is not a number list; otherwise it is the sum over the unfolded rows of their fillings |
| D12.P2Records | src/d12.rs:102-112 | part 2 unfolds a non-empty record to its groups repeated five times, and panics on an empty record (",,,," is not a number list) |
| D13.Groups | src/d13.rs:3-18 | there is always at least one group, the last one pushed even when empty |
| D13.GroupsJoin | src/d13.rs:3-18 | grouping loses no line: joining the groups with blank lines gives the input back |
| D13.JoinExtendLast | src/d13.rs:12 | pushing a line onto the current group adds it to the end of the joined lines |
| D13.GroupsNoBlank | src/d13.rs:8-13 | no group holds a blank line |
| D13.ParseLines | src/d13.rs:3-18 | `parse_lines` builds those groups |
| D13.Diff | src/d13.rs:32-36 | the number of differing places over the shorter length is at most either length |
| D13.DiffSymmetric | src/d13.rs:32-36 | the count of differences is symmetric |
| D13.DiffZero | src/d13.rs:32-36 | no difference means equal on the common length |
| D13.PartnersMeaning | src/d13.rs:31-41 | the inner loop records (i+1, j+1) exactly for the later lines j that differ from line i in `error` places |
| D13.PairsBelowMeaning | src/d13.rs:30-42 | the pairs recorded for the first lines are exactly those whose first line is among them and that differ in `error` places |
| D13.PairsBelowStep | src/d13.rs:30-42 | one more outer round adds that line's partners |
| D13.SamePairsMeaning | src/d13.rs:30-42 | a pair is recorded exactly when 1 <= a < b <= m and lines a and b differ in `error` places |
| D13.Column | src/d13.rs:46-51 | a column has one character per row |
| D13.ColumnAt | src/d13.rs:48-50 | row k of column i is character i of row k |
| D13.Columns | src/d13.rs:44-62 | the first n columns |
| D13.ColumnsAt | src/d13.rs:44-62 | entry i of the first n columns is column i |
| D13.ColumnPair | src/d13.rs:46-51 | columns i and j are built one row at a time, and `nth(..).unwrap()` panics exactly when a row is too short |
| D13.SameRows | src/d13.rs:30-42 | the row loop records exactly the pairs of rows that differ in `error` places |
| D13.ShortAbove | src/d13.rs:49-50 | a row too short for a columns is too short for more |
| D13.ColumnPartners | src/d13.rs:45-61 | the inner column loop pairs column i with every later column, failing exactly on a short row |
| D13.SameCols | src/d13.rs:44-62 | the column loop records exactly the pairs of columns that differ in `error` places, failing exactly on a short row |
| D13.FindSame | src/d13.rs:20-65 | `find_same_rows_and_cols_within_error` yields both lists, or the panic on an empty or ragged pattern |
| D13.AsSet | src/d13.rs:72-74 | the HashSet holds exactly the pairs of the list |
| D13.WalkFrom | src/d13.rs:102-123 | the inward walk with its cursors and one-off flag computes the walk from a start |
| D13.TouchingMeaning | src/d13.rs:79-100 | the filtered pairs are exactly those on the first or on the last line, with the given flag |
| D13.StartsMeaning | src/d13.rs:79-100 | a start is a pair touching the first or the last line, flagged exactly when it comes from the one-off list |
| D13.StartsOrdered | src/d13.rs:79-100 | every start lies on a pair a < b |
| D13.CollectMeaning | src/d13.rs:101-124 | a line is recorded (with or without a one-off pair) exactly when some walk from the starts reaches it that way |
| D13.FindReflection | src/d13.rs:67-127 | `find_reflection` records the lines the walks reach, with and without a one-off pair |
| D13.MidIsHalf | src/d13.rs:104-113 | an odd span has its middle line exactly halfway |
| D13.MidOf | src/d13.rs:104-113 | the k pairs facing each other across the line after c span an odd number of lines around c |
| D13.InCostIsCost | src/d13.rs:104-123 | the walk from the outermost pair adds up the same differences as the mirror |
| D13.SetsOrdered | src/d13.rs:72-74 | every recorded pair is ordered |
| D13.SameSetIs | src/d13.rs:72-74 | the sets built from the pair lists hold the exactly-equal pairs and, when the pattern has a smudge, the one-off pairs (an empty one-off list otherwise) |
| D13.WalkCost | src/d13.rs:104-123 | a walk succeeds exactly when the span is odd and the pairs inside cost no more than the one-off budget, and it then reports the middle line |
| D13.OuterPair | src/d13.rs:79-100 | the outermost pair facing across the line after c touches the first or the last line |
| D13.Mirrors | src/d13.rs:67-127 | a line is recorded without a one-off pair exactly when it is a perfect mirror, and with one exactly when there is a smudge and it is a mirror needing one fix |
| D13.MirrorsOne | src/d13.rs:67-127 | both kinds at once |
| D13.FoundIsMirror | src/d13.rs:101-124 | a recorded line is a mirror |
| D13.StartFacts | src/d13.rs:79-100 | a start touches the first or the last line, and its lines differ once exactly when it is a one-off start |
| D13.WalkIsMirror | src/d13.rs:102-123 | a walk from such a start that reaches line c finds a mirror there |
| D13.MirrorIsFound | src/d13.rs:79-124 | every mirror is reached by the walk from some start |
| D13.OuterIsStart | src/d13.rs:79-100 | a pair touching the first or the last line that differs at most once (once only with a smudge) is a start |
| D13.OuterWalk | src/d13.rs:102-123 | the walk from the outermost pair around a mirror reaches it, having used a one-off pair exactly when that pair differs once |
| D13.First | src/d13.rs:153-163 | `get(0).unwrap_or(&0)` gives 0 for none and otherwise a recorded line |
| D13.SamePairsOrdered | src/d13.rs:30-42 | every recorded pair is ordered |
| D13.ComputeSummary | src/d13.rs:129-164 | `compute_pattern_summary` computes the summary of the pattern, or a panic |
| D13.FoundPositive | src/d13.rs:101-124 | every recorded line lies between two rows or columns |
| D13.DecideMeaning | src/d13.rs:142-163 | the decision panics exactly when no perfect mirror was found, or (with a smudge) no one-fix mirror, and otherwise reports recorded lines, not both 0 |
| D13.FoundAny | src/d13.rs:137-140 | the rows or columns have a mirror of the given kind exactly when one was recorded |
| D13.SummaryMeaning | src/d13.rs:129-164 | for a readable pattern the summary panics exactly when there is no perfect mirror, or with a smudge no one-fix mirror; otherwise each non-zero number is such a mirror, not both zero |
| D13.SumScoresFails | src/d13.rs:166-174 | the sum panics exactly when one of the scores does |
| D13.SumScoresAppend | src/d13.rs:166-174 | the sum adds up over a split of the patterns |
| D13.TotalFails | src/d13.rs:166-174 | the total panics exactly when one pattern's summary does |
| D13.TotalPrefixFails | src/d13.rs:166-174 | a panic among the first patterns is a panic of the whole |
| D13.AggregateAllPatterns | src/d13.rs:166-174 | `aggregate_all_patterns` sums column + 100 × row over the patterns |
| D13.P1 | src/d13.rs:176-179 | part 1 is that total without a smudge |
| D13.P2 | src/d13.rs:181-184 | part 2 is that total with a smudge |
| D14.ParsedUnique | src/d14.rs:3-26 | the lines determine the platform, and no cell holds both kinds of rock |
| D14.ParseRow | src/d14.rs:15-22 | one line is read exactly when it holds only 'O', '#' and '.', and adds exactly its 'O' and '#' cells, 1-based, in its row |
| D14.ParseLines | src/d14.rs:3-26 | `parse_lines` panics exactly on no lines or a character other than 'O', '#' and '.', and otherwise gives the platform the lines describe, rows counted from the bottom |
| D14.LeastExists | src/d14.rs:38-49 | a non-empty set of rocks has a first rock in the sort order |
| D14.Least | src/d14.rs:38-49 | that first rock |
| D14.EnumerateFacts | src/d14.rs:38-49 | the sorted list holds every rock once, in the order toward the edge |
| D14.SlideFacts | src/d14.rs:52-60 | a rolling rock stays in its lane, moves only toward the edge, lands on no cube and no placed rock, stays on the platform, and is stopped by the edge, a cube or a placed rock |
| D14.PlaceAhead | src/d14.rs:51-63 | no rock yet to roll is covered by one already placed |
| D14.PlaceFacts | src/d14.rs:51-63 | every rock placed is a new one, and none lands on a cube |
| D14.PlaceInBox | src/d14.rs:51-63 | rocks that start on the platform stay on it |
| D14.TiltFacts | src/d14.rs:28-66 | a tilt keeps the number of rocks and puts none on a cube or off the platform |
| D14.Roll | src/d14.rs:54-60 | the `while` loop rolls one rock until the edge, a cube or a placed rock stops it |
| D14.MoveRocks | src/d14.rs:28-66 | `move_rocks_to_dir` sorts toward the edge and rolls the rocks one by one |
| D14.LoadRemove | src/d14.rs:132-134 | the load does not depend on the order of summation |
| D14.LoadBounds | src/d14.rs:132-134 | with every row in 1..m the load lies between the number of rocks and m times it |
| D14.FmtAll | src/d14.rs:72-73 | each rock is formatted as "r,c" |
| D14.ParseFmt | src/d14.rs:78-88 | parsing a formatted rock gives it back |
| D14.DecodeAllSnoc | src/d14.rs:78-88 | decoding one more piece adds its rock |
| D14.DecodeFmtAll | src/d14.rs:78-88 | decoding the formatted rocks gives exactly those rocks |
| D14.FmtNoBar | src/d14.rs:72-75 | a formatted rock holds no '\|' |
| D14.EncodeDecode | src/d14.rs:68-88 | `string_to_rounded` of `rounded_to_string` of a non-empty set gives the set back |
| D14.EncodeEmpty | src/d14.rs:68-88 | the key of no rocks is "", which does not decode |
| D14.EncodeInjective | src/d14.rs:68-76 | equal keys mean equal sets, so remembering keys remembers states |
| D14.TiltAllFacts | src/d14.rs:106-108 | tilting in several directions keeps the number of rocks and keeps them off the cubes |
| D14.IterateFacts | src/d14.rs:104-128 | cycling keeps the number of rocks and keeps them off the cubes |
| D14.Periodic | src/d14.rs:113-124 | once the state after a + len cycles repeats the one after a, the state after a + x cycles is that after a + x mod len |
| D14.ReduceMod | src/d14.rs:119 | the reduction is the remainder |
| D14.PeriodicReduce | src/d14.rs:113-124 | the state after a + x cycles is that after a + the reduced x |
| D14.FirstIndex | src/d14.rs:116 | `position(..).unwrap()` on a remembered key finds its first occurrence |
| D14.RepeatAnswer | src/d14.rs:113-124 | after a repeat at `stop` of the state at `start`, k cycles lead where start + (k - start) mod (stop - start) cycles do |
| D14.Prefix | src/d14.rs:102 | the first k remembered keys |
| D14.PrefixAt | src/d14.rs:102 | key i of the list is the key after i cycles |
| D14.FreshKeyHasRocks | src/d14.rs:113 | with no rocks the first key already repeats |
| D14.RepeatDecode | src/d14.rs:116-123 | the remembered key the repeat points to decodes to the state after k cycles, unless there are no rocks |
| D14.DecodeKey | src/d14.rs:123 | the key of a state with as many rocks as the start decodes back, unless there are none |
| D14.RepeatAt | src/d14.rs:113-124 | the same for any repeated function |
| D14.SeenSnoc | src/d14.rs:126-127 | the set of seen keys and the list of keys hold the same keys |
| D14.ReadOffRepeat | src/d14.rs:113-124 | at a repeat the answer read off the list is the state after all the cycles, or the decode panic when there are no rocks |
| D14.SpinCycle | src/d14.rs:106-108 | the inner loop tilts north, west, south and east in turn |
| D14.IterateSucc | src/d14.rs:104-128 | one more cycle is one more spin |
| D14.MoveCycles | src/d14.rs:90-130 | `move_cycles` returns the state after the given number of cycles; with no rocks at all the empty key fails to decode |
| D14.P1 | src/d14.rs:136-140 | part 1 panics exactly when the parse does, and otherwise is the load after one tilt north |
| D14.P2 | src/d14.rs:142-146 | part 2 answers only for a valid platform, and then gives the load after 10^9 cycles, or panics when there is no round rock |
| D15.HashOf | src/d15.rs:17-25 | the HASH of a string is below 256 |
| D15.ModStep | src/d15.rs:20-22 | reducing before a step does not change the step's result modulo 256 |
| D15.HashIsUnreducedMod | src/d15.rs:17-25 | reducing modulo 256 after every character is the same as reducing once at the end |
| D15.Hash | src/d15.rs:17-25 | `hash_func`'s accumulator loop computes the HASH, below 256 |
| D15.ParseSteps | src/d15.rs:13-15 | `parse_lines` panics exactly on no lines, and otherwise gives at least one step, none holding ',' |
| D15.SumHashes | src/d15.rs:89 | the sum of the hashes is below 256 per step |
| D15.P1 | src/d15.rs:87-90 | part 1 panics on no lines and is otherwise the sum of the hashes of the first line's steps |
| D15.ParseOp | src/d15.rs:30-43 | a step ending in '-' removes the name before it; any other step is name=value and panics exactly when it has no '=', with neither part holding '=' |
| D15.SplitShorter | src/d15.rs:39-40 | the name before '=' is shorter than the step |
| D15.OpsOf | src/d15.rs:27-46 | the operations fail exactly when some step does, and otherwise are one per step in order |
| D15.GetOps | src/d15.rs:27-46 | `get_ops`'s loop yields those operations |
| D15.OpsOfFails | src/d15.rs:29-44 | one bad step makes the whole parse panic |
| D15.Position | src/d15.rs:57 | `position` finds the first slot holding the name, and none exactly when no lens has it |
| D15.Upsert | src/d15.rs:53-61 | ADD replaces the lens with that name in place, keeping every other slot, or appends a new one at the end; labels stay unique |
| D15.RemoveLabel | src/d15.rs:63-66 | REMOVE keeps exactly the lenses with other labels, and changes nothing when the label is absent; labels stay unique |
| D15.RemoveKeepsOrder | src/d15.rs:65 | `retain` keeps the remaining lenses in their order |
| D15.Apply | src/d15.rs:51-68 | one operation changes only box HASH(name), by ADD or REMOVE |
| D15.ApplyAll | src/d15.rs:49-68 | the table always has 256 boxes |
| D15.ApplyAllWellPlaced | src/d15.rs:49-68 | every lens stays in the box of its label's hash, and labels stay unique within a box |
| D15.PerformOps | src/d15.rs:49-68 | the loop over the operations on a fresh 256-box array ends with the table those operations give |
| D15.BoxPowerCounts | src/d15.rs:73-82 | every lens adds its own (i+1)(j+1)·length to its box's sum |
| D15.PowerCounts | src/d15.rs:70-84 | every lens adds its own term to the total |
| D15.P2 | src/d15.rs:92-96 | part 2 panics on no lines or a bad step, and is otherwise the focusing power after all operations |
| D16.RowObsHas | src/d16.rs:52-64 | a row's list holds exactly the obstacle characters of that row |
| D16.ColObsHas | src/d16.rs:51-69 | a column's list holds exactly the obstacle characters of that column |
| D16.ParseRow | src/d16.rs:52-70 | one row's inner loop pushes its obstacles onto the row list and onto each column's list, and panics exactly when an obstacle lies right of the last column list |
| D16.RowsStep | src/d16.rs:60-64 | after row x, rows 0..x have their complete lists |
| D16.ColsStep | src/d16.rs:65-69 | after row x, every column list holds the obstacles of rows 0..x in that column |
| D16.ParseLines | src/d16.rs:39-74 | `parse_lines` panics exactly on no lines or an obstacle at or past the first row's width (a missing column list); longer rows are otherwise fine; on success it returns the grid size and fully parsed lists |
| D16.ParsedRecordsEveryObstacle | src/d16.rs:39-74 | every obstacle character is in both its row and its column list, and nothing else is |
| D16.ParsedWellFormed | src/d16.rs:39-74 | the parsed lists have one entry per row and column and every obstacle lies in the grid |
| D16.Outgoing | src/d16.rs:143-176 | a mirror turns the beam at right angles; a splitter hit across splits it into two opposite beams at right angles; a splitter hit along its length lets it pass |
| D16.MirrorReversible | src/d16.rs:144-155 | a beam reflected by a mirror and sent back leaves in the opposite of its incoming direction; '/' swaps Right and Up, '\\' swaps Right and Down |
| D16.Nearest | src/d16.rs:96-134 | the obstacle chosen is ahead of the beam and no farther than any other obstacle ahead, and there is none exactly when nothing is ahead |
| D16.MarkedMeaning | src/d16.rs:183-237 | a beam marks the states on its lane in its direction from its own cell up to the obstacle that stops it, excluded, or up to the grid edge |
| D16.MarkedStart | src/d16.rs:183-237 | a beam marks its own cell unless an obstacle on that very cell stops it |
| D16.ShootInGrid | src/d16.rs:117-237 | whatever a beam inside the grid marks or hands on lies inside the grid |
| D16.MarkRange | src/d16.rs:186-196 | a marking loop adds the states of the given lane positions |
| D16.Shoot | src/d16.rs:94-237 | processing one beam hands on the beams leaving the nearest obstacle and marks the states it passes |
| D16.InSpace | src/d16.rs:94-237 | every in-grid beam state lies in the finite space of states |
| D16.NearestShift | src/d16.rs:96-134 | two beams going the same way, for which the same obstacles count as ahead, pick the same nearest obstacle |
| D16.MarkedOnward | src/d16.rs:94-237 | a beam leaving any state another beam marked meets the same obstacle or edge, marks a subset of what that beam marked and hands on the same beams |
| D16.EnergisedClosed | src/d16.rs:76-244 | the energised states (those in every set closed under marking and handing on from the start beam) are themselves such a closed set |
| D16.EnergisedStart | src/d16.rs:76-244 | the starting cell is energised, and every energised cell lies in the grid |
| D16.EnergisedSteps | src/d16.rs:94-237 | shooting an energised beam (or the start beam) marks and hands on only energised states |
| D16.SkipCovers | src/d16.rs:89-92 | skipping an already visited beam leaves no visited state's successors unaccounted for |
| D16.ProcessCovers | src/d16.rs:94-237 | shooting a pending beam keeps every visited state's marks visited and its handed-on beams visited or pending |
| D16.CoveredClosed | src/d16.rs:86-241 | when nothing is pending, the visited states form a closed set |
| D16.ParsedIsGrid | src/d16.rs:39-74 | the parsed layout is determined by the lines |
| D16.ShootPending | src/d16.rs:89-238 | shooting an unvisited pending beam adds exactly its marks and its handed-on beams, stays within the energised states and leaves nothing behind |
| D16.SimulateRound | src/d16.rs:87-240 | one round processes the pending beams, stays within the energised states, leaves nothing behind, and after the first round visits a new state or hands on nothing |
| D16.SimulateBeam | src/d16.rs:76-244 | the simulation ends and returns exactly the cells of the energised states: the least set of states closed under the per-beam step from the start beam |
| D16.GetBeamsFromAllDirs | src/d16.rs:275-311 | the edge beams are 2m + 2n distinct beams, each entering the grid, and every beam entering from an edge is among them |
| D16.EdgeAtIndex | src/d16.rs:278-308 | the beam at each index is the one the two push loops put there |
| D16.EdgeBeamsShape | src/d16.rs:278-308 | the pushed beams all enter the grid, cover every edge entry and are pairwise distinct |
| D16.P1 | src/d16.rs:313-326 | part 1 panics exactly on a failed parse or an empty first row, and otherwise is the number of cells energised by the beam entering the top-left cell moving right (at least 1) |
| D16.P2 | src/d16.rs:328-335 | part 2 panics exactly on a failed parse or an empty first row, and otherwise is the largest number of energised cells over all beams entering from an edge: reached by one of them and no less than any |
| D17.Opposite | src/d17.rs:28-35 | the opposite direction differs from the argument and moves by the negated offset |
| D17.OppositeInvolution | src/d17.rs:28-35 | taking the opposite twice gives back the direction |
| D17.ParseLines | src/d17.rs:5-17 | parsing panics exactly when some cell is not a digit, and otherwise keeps the shape and gives each cell its digit value 0..9 |
| D17.ConsiderDirs | src/d17.rs:96-108 | the directions considered are exactly those that do not reverse, that go straight while the run is below the minimum, and that turn once the run has reached the maximum |
| D17.ConsiderDirsDistinct | src/d17.rs:97-108 | no direction is considered twice |
| D17.AllDirsComplete | src/d17.rs:61-66 | the direction list holds every direction |
| D17.FilterIn | src/d17.rs:98-107 | `retain` keeps exactly the elements that pass the test |
| D17.FilterDistinct | src/d17.rs:98-107 | `retain` keeps a list without repeats free of repeats |
| D17.ExpandIn | src/d17.rs:110-139 | the pushed states are exactly the moves in a considered direction that stay on the grid |
| D17.Successors | src/d17.rs:96-139 | the states pushed on expansion are exactly the successors under the movement rules |
| D17.SuccessorRules | src/d17.rs:96-134 | a successor never reverses, keeps going below the minimum run, turns at the maximum, stays on the grid, counts its run and pays the heat of the cell it enters |
| D17.KeyInKeySpace | src/d17.rs:86 | a state's visited key lies in the finite key space |
| D17.PathExtend | src/d17.rs:135-136 | a path extended by a successor is a path ending there |
| D17.PathRunBounded | src/d17.rs:101-128 | along a path the run length stays between 0 and the maximum |
| D17.PathHeatMonotone | src/d17.rs:123 | heat loss never decreases along a path |
| D17.ShiftSuccessor | src/d17.rs:86-134 | a move depends only on the state's key, so from a cheaper state with the same key it reaches the same key no more expensively |
| D17.Frontier | src/d17.rs:81-139 | every path whose final key is not yet visited is dominated by a heap entry |
| D17.MinExists | src/d17.rs:53-57 | a non-empty heap has an entry of least heat loss to pop |
| D17.CoveredAfterPop | src/d17.rs:82-90 | popping an entry once its key is visited keeps every state covered |
| D17.CoveredAfterPush | src/d17.rs:138 | pushing more entries keeps every state covered |
| D17.PopStale | src/d17.rs:86-89 | popping an entry whose key was visited keeps the search invariant |
| D17.PopNewOpt | src/d17.rs:82-90 | the least entry with a new key is visited at the least heat of any path to that key |
| D17.ExpandedHeapBounds | src/d17.rs:110-139 | the entries kept or pushed lie in the key space and cost no less than the popped one |
| D17.VisitInKeySpace | src/d17.rs:90 | the visited set stays inside the key space |
| D17.VisitKeepsLevels | src/d17.rs:90-94 | visited keys are recorded at costs no greater than the current one, none at the target |
| D17.PopNewShape | src/d17.rs:82-139 | expanding a popped entry with a new key keeps the heap and visited bookkeeping |
| D17.CoveredAfterExpand | src/d17.rs:90-139 | visiting the popped key and pushing its successors keeps a covered state covered |
| D17.PopNewCover | src/d17.rs:90-139 | expanding a popped entry keeps every path dominated |
| D17.PopNew | src/d17.rs:82-139 | one expansion keeps the whole invariant, and every pushed entry has a path that reaches it |
| D17.TargetIsOptimal | src/d17.rs:92-94 | the least entry popped at the bottom-right cell costs no more than any path there |
| D17.ExhaustedUnreachable | src/d17.rs:142 | once the heap is empty no path reaches the bottom-right cell |
| D17.PushMoves | src/d17.rs:110-139 | the inner loop pushes the states one move away in the considered directions |
| D17.ExpandPrefix | src/d17.rs:110-139 | each loop turn adds the move in its direction when it stays on the grid |
| D17.ExpandSnoc | src/d17.rs:110-139 | considering one more direction adds its move when it stays on the grid |
| D17.WitAfterPush | src/d17.rs:135-138 | every pushed state has a path ending at it |
| D17.IterateGrid | src/d17.rs:52-143 | the search returns the least heat loss of any path to the bottom-right cell, attained by a path, or -1 exactly when no path gets there |
| D17.Solve | src/d17.rs:5-17 | parsing and searching panic exactly on a non-digit cell, no rows, or a row shorter than the first, and otherwise give the least heat loss |
| D17.P1 | src/d17.rs:170-173 | part 1 is the least heat loss moving at most 3 times in a row |
| D17.P2 | src/d17.rs:175-178 | part 2 is the least heat loss moving at least 4 and at most 10 times in a row before turning |
| D18.DirectionOf | src/d18.rs:27-33 | each of U, D, L and R names its direction and any other word is a panic |
| D18.StripParens | src/d18.rs:36-43 | the colour is what lies between a leading '(' and a trailing ')', and a missing parenthesis is a panic |
| D18.HexDirection | src/d18.rs:47-53 | the last hex digit names a direction exactly when it is 0 to 3 |
| D18.HexDig | src/d18.rs:45-54 | the hex mode panics exactly when the colour is too short, its middle is not hex or its last digit is not 0 to 3, and keeps the colour |
| D18.ParseDig | src/d18.rs:24-60 | a line parses exactly when it has three tokens, a direction letter, a decimal distance and a parenthesised colour, and in hex mode a valid colour code; plain mode then takes the letter and distance, hex mode the colour's reading |
| D18.HexModeOfPlainDig | src/d18.rs:45-54 | hex mode gives the colour's reading of a line plain mode accepts |
| D18.HexExample | src/d18.rs:46-53 | "#70c710" reads as 461937 to the right |
| D18.ParsePlan | src/d18.rs:21-64 | parsing panics exactly when some line does, and otherwise gives one dig per line in order |
| D18.ParseLines | src/d18.rs:21-64 | `parse_lines`'s loop yields that plan |
| D18.ParsePlanFails | src/d18.rs:24-61 | one bad line makes the whole parse panic |
| D18.Opposite | src/d18.rs:74-79 | the opposite direction differs from the direction |
| D18.MoveOpposite | src/d18.rs:74-79 | digging back the same distance the opposite way returns to the start, and a dig moves along one axis by its distance |
| D18.ProcessDigPlan | src/d18.rs:66-92 | `process_dig_plan`'s loop computes the lagoon size given by the shoelace formula and Pick's theorem |
| D18.CrossStep | src/d18.rs:82 | one dig's shoelace term equals twice its sideways product less the change of the product of the coordinates |
| D18.ShoelaceBySideways | src/d18.rs:73-86 | the shoelace sum is twice the sideways sum less the product of the end coordinates |
| D18.ClosedShoelaceEven | src/d18.rs:82-88 | a trench that closes has an even shoelace sum, so halving it loses nothing |
| D18.RectangleLagoon | src/d18.rs:66-92 | an a-by-b rectangle dug clockwise gives (a+1)(b+1) cells |
| D18.P1 | src/d18.rs:94-97 | part 1 panics exactly when a line does not parse, and is otherwise the lagoon of the letter-and-distance plan |
| D18.P2 | src/d18.rs:99-102 | part 2 panics exactly when a line does not parse in hex mode, and is otherwise the lagoon of the colour-code plan |
| D19.Lookup | src/d19.rs:180 | looking up a rating's variable finds a value it holds, and nothing exactly when no entry has that variable |
| D19.InsertLookup | src/d19.rs:134 | inserting sets the variable's value, leaves every other variable alone, and appends a new variable at the end |
| D19.InsertUnique | src/d19.rs:134 | inserting keeps the variables of a rating unique |
| D19.ParseTarget | src/d19.rs:67-75 | "A" means accepted, "R" rejected, and any other text names that workflow |
| D19.ParseRule | src/d19.rs:77-112 | a piece without ':' is an unconditional rule to its target; a parsed rule with ':' is a comparison |
| D19.ParseRules | src/d19.rs:62-114 | the rules of a workflow are one per piece, each with a parsed condition |
| D19.ParseRulesPieces | src/d19.rs:62-114 | the rules parse exactly when every piece does, and each is its piece's rule |
| D19.ParseWorkflowLine | src/d19.rs:53-115 | a parsed workflow line holds only comparison or unconditional rules |
| D19.ParseRating | src/d19.rs:118-137 | the rating loop reads the line as the rating it denotes, or panics |
| D19.RatingOfFails | src/d19.rs:130-135 | one bad rating piece makes the whole line panic |
| D19.FirstBlank | src/d19.rs:47-50 | the first blank line, or the end, is where the ratings begin |
| D19.FirstBlankIsFirst | src/d19.rs:47-50 | no line before it is blank |
| D19.WorkflowsOfParsed | src/d19.rs:52-116 | every rule of the workflows read from the lines has one of the three conditions the parser makes |
| D19.ParsedWorkflow | src/d19.rs:52-116 | a workflow line before the first blank line adds its workflow, or makes the whole parse panic |
| D19.ParsedRating | src/d19.rs:117-138 | a rating line after the first blank line appends its rating, or makes the whole parse panic |
| D19.ParsedBlank | src/d19.rs:47-50 | a blank line switches the loop to (or keeps it in) the rating section |
| D19.RatingsSkip | src/d19.rs:47-50 | a blank line among the ratings adds no rating |
| D19.WorkflowsOfFails | src/d19.rs:52-116 | one bad workflow line makes the whole parse panic |
| D19.RatingsOfFails | src/d19.rs:117-138 | one bad rating line makes the whole parse panic |
| D19.WorkflowsStep | src/d19.rs:46-116 | each loop turn over a workflow line adds that workflow |
| D19.RatingsStep | src/d19.rs:117-138 | each loop turn over a rating line appends that rating |
| D19.RunLinesSections | src/d19.rs:46-140 | after any number of lines the loop holds the workflows read so far, or the workflows before the first blank line with the ratings read since, and a panic means the whole parse panics |
| D19.RunLinesFails | src/d19.rs:46-140 | once a line panics, no later line undoes it |
| D19.RunLinesAll | src/d19.rs:40-142 | running the loop over every line gives exactly the workflows before the first blank line with the ratings after it, and panics exactly when one of the two sections does |
| D19.ParseLines | src/d19.rs:40-142 | `parse_lines`'s loop gives that parse |
| D19.TargetRoundTrip | src/d19.rs:67-75 | printing a target and parsing it back gives the target |
| D19.ComparisonRoundTrip | src/d19.rs:90-109 | printing `variable op number` and splitting it back gives the variable and number |
| D19.FormatRuleChars | src/d19.rs:62 | a printed rule holds none of ",{}" |
| D19.FormatRuleHead | src/d19.rs:87 | a printed rule starts with a non-blank character |
| D19.RuleRoundTrip | src/d19.rs:77-112 | printing a well-formed rule and parsing it back gives the rule |
| D19.ParseRuleOfParts | src/d19.rs:86-112 | a test and a target joined by ':' parse by the test's '>' first, then its '<', and panic otherwise |
| D19.TestText | src/d19.rs:90-101 | the text `variable op number` has no ':' or surrounding blanks and holds its operator |
| D19.ComparisonRuleRoundTrip | src/d19.rs:86-109 | printing a comparison rule and parsing it back gives it |
| D19.FormatRules | src/d19.rs:62 | the printed rules are one text per rule, in order |
| D19.ParseFormattedRules | src/d19.rs:62-114 | printing well-formed rules and parsing them back gives them |
| D19.WorkflowBody | src/d19.rs:55-62 | the printed body of a workflow holds no '{', starts non-blank and splits back into its rules' texts |
| D19.WorkflowRoundTrip | src/d19.rs:53-115 | printing a workflow with at least one well-formed rule and parsing it back gives it |
| D19.FirstMatch | src/d19.rs:172-201 | the first rule that fires decides the next workflow; no rule fires exactly when every rule's test is false |
| D19.FirstMatchParsed | src/d19.rs:172-201 | parsed rules never reach the invalid-condition panic, and a final unconditional rule always fires |
| D19.ApplyRules | src/d19.rs:172-201 | the inner rule loop with its early break returns the first match |
| D19.EvaluateFuel | src/d19.rs:158-202 | once a rating's walk is decided, more workflow visits do not change it |
| D19.Walk | src/d19.rs:151-202 | following one rating from "in" until A or R gives its evaluation |
| D19.FindAcceptedWflows | src/d19.rs:144-206 | the accepted indices are exactly the ratings whose walk ends at A, given that every walk is decided |
| D19.Aggregate | src/d19.rs:208-216 | the aggregate is at most the total of all ratings, equal to it when all are accepted, and 0 when none are |
| D19.AggregateMonotone | src/d19.rs:208-216 | accepting more ratings never lowers the aggregate |
| D19.P1 | src/d19.rs:386-390 | part 1 is defined exactly when the parse succeeds and every walk is decided, and is then the aggregate of the accepted ratings |
| D19.UpdateRange | src/d19.rs:266-289 | narrowing panics exactly on the unconditional rule or `< 0`, and otherwise keeps exactly the values of the interval meeting the condition |
| D19.UpdateRanges | src/d19.rs:291-326 | narrowing panics on a name other than x, m, a and s, and otherwise keeps exactly the parts of the box meeting the condition on that coordinate |
| D19.ComplementPartition | src/d19.rs:362-366 | the complement condition holds exactly when the condition does not |
| D19.SplitPartitions | src/d19.rs:328-375 | the box pushed to a comparison's target and the box carried to the next rule split the current box with no overlap |
| D19.StartVolume | src/d19.rs:222-228 | the start box holds 4000^4 combinations |
| D19.WidthSplit | src/d19.rs:328-375 | a condition and its complement split an interval's width |
| D19.VolumeSplit | src/d19.rs:328-375 | the pushed and carried boxes together have the volume of the box they split |
| D19.VolumeSplitX | src/d19.rs:306-309 | splitting the x range splits the volume |
| D19.VolumeSplitM | src/d19.rs:310-313 | splitting the m range splits the volume |
| D19.VolumeSplitA | src/d19.rs:314-317 | splitting the a range splits the volume |
| D19.VolumeSplitS | src/d19.rs:318-321 | splitting the s range splits the volume |
| D19.PushRules | src/d19.rs:254-378 | the rule loop pushes each rule's box onto the stack in order, or panics |
| D19.PointsInMember | src/d19.rs:222-228 | the parts of a box are exactly those whose four ratings lie in its intervals |
| D19.PointsSplit | src/d19.rs:328-375 | two boxes that split a third without overlap hold its parts between them |
| D19.BoxCard | src/d19.rs:245-248 | a non-empty box holds exactly the product of its four widths of parts, the amount the source adds for an accepted box |
| D19.CombosMeaning | src/d19.rs:218-384 | what the stack search counts from a workflow and box is the number of parts of the box the workflows accept from there, when each workflow's unconditional rule is last and nothing panics |
| D19.RuleCombosMeaning | src/d19.rs:254-378 | what a workflow's rules push for a box counts the parts of the box its rules send on to be accepted |
| D19.RuleSplit | src/d19.rs:328-375 | a comparison rule splits the parts its workflow sends on to be accepted between its target and the later rules |
| D19.WeighAppend | src/d19.rs:257-356 | what a stack still counts is the sum over its two halves |
| D19.PushesCombos | src/d19.rs:254-378 | the entries a workflow pushes for a box count what its rules count |
| D19.PushStep | src/d19.rs:252-378 | popping a workflow entry and pushing its rules' entries keeps the total still to count |
| D19.WeighPop | src/d19.rs:230-237 | popping an entry splits off what it counts |
| D19.FindPosCombs | src/d19.rs:218-384 | on success the result is what the start box counts; when every workflow has its unconditional rule only last, that is the number of parts of [1,4000]^4 the workflows accept, at most 4000^4 |
| D19.P2 | src/d19.rs:392-395 | part 2 panics when the parse does; otherwise on success it is what the start box counts over the parsed workflows, the number of accepted parts when each unconditional rule is last |
| D20.ParseDecl | src/d20.rs:30-57 | a line panics exactly when it has no "->"; otherwise the outputs are the trimmed comma-separated pieces after it, the module is the broadcaster, a flip-flop or a conjunction exactly for the name "broadcaster" or a '%' or '&' prefix, the name loses that prefix, and the module sends to the outputs; a flip-flop starts off and a conjunction starts knowing no inputs |
| D20.AddSenders | src/d20.rs:61-66 | recording a module as sender adds its name to the sender set of exactly its outputs and changes nothing else |
| D20.CollectSenders | src/d20.rs:29-67 | every sender set is non-empty, and s is recorded as a sender of t exactly when some line declares s with output t |
| D20.CollectModules | src/d20.rs:29-67 | a name is a module exactly when some line declares it, and it holds a component declared on such a line |
| D20.Decls | src/d20.rs:29-37 | the lines parse exactly when each holds "->", and then give one declaration per line |
| D20.CollectLines | src/d20.rs:29-67 | the first pass over the lines yields the collected modules and senders, or panics |
| D20.AddEachSender | src/d20.rs:61-66 | after the loop over one line's outputs, each output lists that line's module among its senders, exactly as the recursive sender map does |
| D20.WireWithStep | src/d20.rs:70-87 | wiring one more sender into a module records Low for that sender |
| D20.WiredPartStep | src/d20.rs:69-88 | each turn of the outer loop wires one more destination |
| D20.WiredPartAll | src/d20.rs:69-88 | once every destination is wired, the network is the wired one |
| D20.WireOne | src/d20.rs:70-87 | the inner loop makes a missing destination a NOOP module and records Low for each of its senders |
| D20.WireInputs | src/d20.rs:69-88 | the second pass, in any order of either map, gives the wired network |
| D20.ParseLines | src/d20.rs:25-91 | `parse_lines` gives the parse or panics on a line without "->" |
| D20.ParsedClosed | src/d20.rs:69-88 | after parsing, every destination of every module is a module |
| D20.CollectedConjunctionEmpty | src/d20.rs:51-57 | a conjunction read from the lines knows no inputs yet |
| D20.WireConjunctionInputs | src/d20.rs:76-86 | wiring gives such a conjunction exactly its senders, all Low |
| D20.ParsedConjunctionInputs | src/d20.rs:25-91 | after parsing, each conjunction remembers Low for exactly the modules sending to it |
| D20.React | src/d20.rs:138-223 | the broadcaster forwards a Low and panics on a High; a flip-flop ignores High and toggles on Low, sending High when it was off; a conjunction panics on an unknown sender, and otherwise records the pulse and sends Low exactly when all its inputs are High; NOOP does nothing |
| D20.Sends | src/d20.rs:145-211 | a reaction that sends enqueues one message per destination, in destination order |
| D20.ReactKeepsClosed | src/d20.rs:129-228 | in a parsed network a reaction panics only on a High pulse to the broadcaster, keeps the network closed, and sends only to existing modules |
| D20.SimulatePulses | src/d20.rs:108-232 | the simulation panics on a missing "rx" or a missing sender set, and otherwise gives the simulated presses' result for the watched conjunctions of some sender of "rx" |
| D20.DrainKeepsCounters | src/d20.rs:143-198 | in part 2 the pulse counters never change |
| D20.DrainCyclesPositive | src/d20.rs:214-226 | every recorded cycle is a positive press number, and the answer of part 2 is a common multiple of them |
| D20.P1 | src/d20.rs:234-237 | part 1 panics when the parse does, and is otherwise the result of 1000 presses |
| D20.P2 | src/d20.rs:239-242 | part 2 panics when the parse does, and is otherwise the result of the presses in part-2 mode |
| D21.PositionOf | src/d21.rs:16-24 | '.', '#' and 'S' are the known characters, '#' alone is a rock, and anything else is a panic |
| D21.ParseRow | src/d21.rs:14-26 | a row parses exactly when every character is known, one position per character |
| D21.ParseRows | src/d21.rs:13-27 | the map parses exactly when every row does, one row per line |
| D21.LastS | src/d21.rs:19-20 | the start column of a line is its last 'S', and there is none when it has no 'S' |
| D21.StartOf | src/d21.rs:11-20 | the start is (0, 0) or an 'S' cell, and no 'S' comes after it in reading order |
| D21.ParseLine | src/d21.rs:14-26 | the character loop gives the row's positions and moves the start to the line's last 'S' |
| D21.ParseLines | src/d21.rs:9-30 | `parse_lines` panics exactly on an unknown character, and otherwise gives the map and the last 'S' |
| D21.OpenAtPeriodic | src/d21.rs:46 | the map repeats one height or width further on |
| D21.NeighboursFrom | src/d21.rs:44-53 | the directions tried so far add at most one cell each, and panic exactly when a lookup does |
| D21.NeighboursFromMeaning | src/d21.rs:44-53 | a cell is collected exactly when a direction tried so far leads to it and it is a plot |
| D21.DirsAreOrthogonal | src/d21.rs:35 | the four directions lead exactly to the orthogonally adjacent cells |
| D21.StepMeaning | src/d21.rs:41-56 | a cell is reached in one more step exactly when it is a plot adjacent to a cell reached now |
| D21.StepSetAdd | src/d21.rs:43-54 | each reached cell adds its open neighbours to the next set |
| D21.StepSetBound | src/d21.rs:43-54 | each reached cell adds at most four cells |
| D21.ReachNext | src/d21.rs:40-57 | the cells after k steps are one step on from those after k - 1 |
| D21.ReachBound | src/d21.rs:40-57 | at most 4^k cells are reached after k steps |
| D21.WithinOneMore | src/d21.rs:44-45 | one move keeps a cell within reach of the start at the next step count, with the parity flipped |
| D21.StepWithin | src/d21.rs:43-54 | a step moves every cell within k steps of the start to one within k + 1 |
| D21.ReachWithinSteps | src/d21.rs:38-57 | every cell reached after k steps lies within k steps of the start with the parity of k, and is a plot once k >= 1 |
| D21.AddNeighbours | src/d21.rs:44-53 | the direction loop adds exactly the cell's open neighbours, or panics |
| D21.NeighboursFails | src/d21.rs:44-53 | a panicking lookup makes the whole step panic |
| D21.StepOnce | src/d21.rs:41-56 | one pass over the reached cells, in any order, gives the next step |
| D21.ExploreMap | src/d21.rs:32-60 | `explore_map` counts the cells reached after the given number of steps |
| D21.ReachFails | src/d21.rs:40-57 | a panic at some step is a panic of the whole walk |
| D21.ExploredFacts | src/d21.rs:32-60 | with no steps only the start is counted, and after k steps at most 4^k cells |
| D21.P1 | src/d21.rs:62-65 | part 1 is the count after 64 steps |
| D21.P2 | src/d21.rs:67-70 | part 2 is the count after 100 steps |

## Left out

- `src/main.rs` (reading the input file and dispatching to a day) and `src/d22.rs` are not part of this model. Every part takes the input's lines as a sequence of strings.
- Integer widths: every `i32`, `i64` and `usize` is an unbounded Dafny integer, so overflow is not modelled (for example the day 18 shoelace sum, the day 19 combination count and the day 20 least common multiple). An underflow that the source reaches on malformed input is modelled as a panic: `seeds.len() - 1` on day 5, `n - 1` and `m - 1` on day 16, `value - 1` on day 19.
- Debug output is not modelled: `print_visited` (day 16), `print_grid` (day 17) and the path that `iterate_grid` returns beside the heat loss, which both parts discard.
- Characters: strings are sequences of characters, and byte offsets (`find`, `match_indices`, slicing) are taken as character offsets. The two agree on the ASCII puzzle input.
- D1.P2: `match_indices` reports non-overlapping matches. No digit word overlaps itself, so every occurrence is modelled.
- D6.P1: a negative race time is a failure (`None`). The source would go on with truncating division there.
- D6.P2: same as D6.P1, for the single concatenated race.
- D6.ComputeNumWays: both parts use the corrected `CountWays` instead of this model of `compute_num_ways` as written (see "## Findings").
- D7.Solve: returns `None` when hands differ in length or hold an unknown card. The source's `sort_unstable` comparator is then not a total order, and what it does is unspecified.
- D7.SortHands: `sort_unstable` is modelled as an insertion sort. The ranking it yields is the same whenever the hands are distinct (D7.RankingUnique). The order among equal hands is not modelled.
- D8.StepsP1: the walk from "AAA" can loop forever in the source. The model stops after `fuel` moves and states that no earlier move reaches "ZZZ".
- D8.StepsP2: states that the answer is a positive common multiple of every start node's loop length. It does not state that it is the least one.
- D8.StartNodes: the start nodes come in the map's key order, which Rust leaves unspecified; the answer does not depend on it.
- D10.ProcessPolygon: a walk that gets stuck on a cell other than the start loops forever in the source. The model returns `None` there.
- D12: `#[memoize]` caching is not modelled, because it does not change any result.
- D14.MoveRocks: the source moves the rounded rocks in `HashSet` order sorted by distance to the edge. The model breaks ties between rocks in different lanes by lane. That the result does not depend on the tie order is not proved.
- D17.Solve: returns `None` for a grid with a row shorter than the first. The source panics there only if the search reaches a missing cell.
- D17.IterateGrid: requires a maximum run of at least 1. Both parts use 3 and 10.
- D19.P1: the walk of a rating through the workflows can loop forever in the source. The model stops after `fuel` workflow visits and returns `None` when some walk is not decided by then.
- D19.FindPosCombs: the stack search is bounded by `fuel` pops. The exact count is the recursive count D19.Combos. It is tied to the number of accepted parts only when every workflow has its unconditional rule last. Otherwise the source counts a box again for each rule after an unconditional one, and so does the model.
- D19.P2: same fuel bound and rule-shape condition as D19.FindPosCombs.
- D20.SimulatePulses: each button press handles at most `fuel` messages. The sender of "rx" whose inputs are watched is whichever one `HashSet::iter().next()` yields; the model allows any of them.
- D20.P2: takes the number of presses as an argument. The source passes `usize::MAX - 1`.

## Findings

| source | as written | input that shows it | evidently intended | confidence | as-written member | corrected member |
|---|---|---|---|---|---|---|
| src/d3.rs:19-21 | a number that ends at the last column is recorded one column too far left, so a symbol two columns away counts as adjacent | lines "\*...", "..12": part 1 gives 12 | the number 12 touches no symbol, so part 1 gives 0 | high, not executed | D3.ShiftCountsFarNumber | D3.FixedKeepsFarNumberOut |
| src/d3.rs:62-68 | a number is tested for a neighbouring symbol only around its first and last digit, so a symbol next to a middle digit is missed | lines "..\*...", "12345.": part 1 gives 0 | the '\*' is directly above the digit 3, so part 1 gives 12345 | high, not executed | D3.MiddleDigitPart | D3.FixedMiddleDigitPart |
| src/d5.rs:114-127 | a seed range that straddles both ends of a mapping rule is left unmapped | seeds "5 10", two sections with rules "100 7 2" and "0 7 8", the later ones "0 0 0": part 2 gives 0 | every seed location is at least 2, so part 2 gives 2 | high, not executed | D5.StraddleUnderReports | D5.CutAnswer |
| src/d6.rs:51-58 | `compute_num_ways` returns -1 for an even race time whose record cannot be beaten | time 2, record 1: gives -1 | no way to win, so 0 | high, not executed | D6.TimeTwoRecordOne | D6.CountWays |
| src/d10.rs:61-78 | the start cell is never marked visited, so the walk can step straight back into it | grid "F-7", "\|.S", "L-J": part 1 gives 1 | the loop has 8 cells, so part 1 gives 4 | high, not executed | D10.SourceWalkStepsBack | D10.FixedWalkGoesRound |
| src/d10.rs:80-84 | the shoelace area is halved but kept signed, so a loop walked clockwise gets a negative area and a negative interior count | grid "F-7.", "\|.S.", "\|.\|.", "L-J.": part 2 gives -10 | the loop encloses 2 cells, so part 2 gives 2 | high, not executed | D10.TallGridSignedArea | D10.TallGridAbsoluteArea |
