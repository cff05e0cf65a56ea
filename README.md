# Advent of Code solutions, modelled in Dafny

This project models the puzzle logic of a collection of Advent of Code
solutions (Rust and TypeScript) and proves what each solution computes.
Each module follows one source file: its data become datatypes or classes,
its loops become methods with invariants, and its pipelines become
functions. Each method is proved against a specification function, and the
properties the puzzles and the solutions' own tests rely on are proved
about those functions as lemmas.

The centre of the model is the wire circuit of 2015 day 7:

- `WireKit` holds the parser for one instruction line (`ProcessInstruction`),
  the gate semantics on 16-bit signals, the reset of gate outputs, and
  `EvaluateCircuit`, which sweeps the gate list until every wire is known or
  a gate aborts with an error tag.
- The class `WiresKit` owns the wire map and the gate list, as the source's
  struct does.
- Evaluation is specified by the functions `Fire`, `Sweep` and `Evaluate`.
  The lemmas about them show that signals never revert, that `Ok` means
  every wire is known, and that a ranked (acyclic) circuit always finishes.
  They also show that a relay cycle never finishes, because the source has
  no stuck detection.
- `CircuitRun` is the driver's two passes: wire b is pinned to the first
  value of a, then the circuit is evaluated again.

The other modules, one per puzzle:

| module | puzzle |
|---|---|
| `Floors` | 2015 day 1: final floor and first basement step |
| `PresentBoxes` | 2015 day 2: box parsing, surface area, smallest face, paper |
| `Vectors`, `SantaRoutes`, `SantaWalks` | 2015 day 3: position vectors (class `Vector2`) and their text keys, the visit counter (class `SantaRoute`), and the single and alternating walks |
| `NiceStrings` | 2015 day 5: vowel counter, doublet counter, forbidden pairs, nice check |
| `Lights`, `CoordinateText` | 2015 day 6: the 1000×1000 grid (class `Lights` over an `array`), updated in place by rectangle commands, and `x,y` coordinate parsing |
| `EscapeText` | 2015 day 8: decoding string literals and counting their UTF-8 bytes |
| `Calories`, `JsNumbers` | 2022 day 1: grouping lines into elves, the in-place sort, and the top three |
| `Calibration`, `SpelledCalibration` | 2023 day 1: first and last digit, with spelled-out digits in part two |
| `EngineSchematic`, `EngineSample` | 2023 day 3: part numbers next to symbols, and the sample grid summing to 4361 |
| `ScratchCards`, `ScratchCardGame` | 2023 day 4: card parsing, matches and points, and the copy cascade over a 204-entry array |
| `LocationLists` | 2024 day 1: line parsing, total distance between the sorted lists, and similarity |
| `Reports` | 2024 day 2: report parsing, safety, and the problem dampener |
| `MulInstructions` | 2024 day 3: the `mul(a,b)` scanner, with and without `do()`/`don't()` |
| `WordSearching` | 2024 day 4: class `WordSearch`, counting along rows and columns in both directions |
| `ProductIds` | 2025 day 2: ID ranges and IDs made of a digit sequence written twice |

Shared modules:

- `Wrappers`: `Option` and `Result`.
- `Ints`: the fixed-width integer ranges.
- `Text`: decimal rendering and parsing, `split`, `split_whitespace`.

## Model

| member | source | states |
|---|---|---|
| Floors.FloorCounts | 2015/day_1_rust/src/main.rs:15-20 | the final floor is the number of '(' minus the number of ')'; every other character leaves the floor unchanged |
| Floors.FloorBound | 2015/day_1_rust/src/main.rs:15-20 | every character moves at most one floor, so the floor stays within the line's length of the ground floor |
| Floors.BasementStepFirst | 2015/day_1_rust/src/main.rs:21-23 | the basement step is 0 exactly when no prefix ends on floor -1, and otherwise it is the length of the shortest prefix that does |
| Floors.BasementStepKept | 2015/day_1_rust/src/main.rs:21-23 | once the basement has been entered, reading more characters never changes the recorded step |
| Floors.WalkStep | 2015/day_1_rust/src/main.rs:15-23 | one loop iteration: the floor moves by the character's delta, and the step is recorded only on the first arrival at -1 |
| Floors.Walk | 2015/day_1_rust/src/main.rs:12-27 | the loop over the first line returns the final floor (which fits an i32) and the first 1-based position at which the floor is -1, or 0 |
| Floors.BasementSamples | 2015/day_1_rust/src/main.rs:21-23 | ")" enters the basement at position 1 and "()())" at position 5 |
| PresentBoxes.DimensionOf | 2015/day_2_rust/src/present_box.rs:18 | a part reads as a positive number exactly when it is a decimal u32 above zero; anything else (sign, fraction, letter, overflow) reads as 0 |
| PresentBoxes.Dimensions | 2015/day_2_rust/src/present_box.rs:16-19 | every 'x'-separated part is read, one dimension per part, in order |
| PresentBoxes.New | 2015/day_2_rust/src/present_box.rs:15-34 | the text is accepted exactly when it has three parts and each reads as a positive u32; an accepted box has three positive u32 dimensions |
| PresentBoxes.DimensionOfDecimal | 2015/day_2_rust/src/present_box.rs:18 | a positive u32 written in decimal reads back as itself and contains no 'x' |
| PresentBoxes.NewRender | 2015/day_2_rust/src/present_box.rs:15-34 | round trip: every valid box is read back unchanged from its own "LxWxH" text |
| PresentBoxes.NewOfParts | 2015/day_2_rust/src/present_box.rs:21-23 | parts joined by 'x' are accepted exactly when there are three and none reads as 0 |
| PresentBoxes.NewRejectsZero | 2015/day_2_rust/src/present_box.rs:70-73 | "0x3x5" is InvalidDimensions |
| PresentBoxes.NewRejectsTwoParts | 2015/day_2_rust/src/present_box.rs:75-78 | "2x3" is InvalidDimensions |
| PresentBoxes.NewRejectsFourParts | 2015/day_2_rust/src/present_box.rs:90-93 | "2x3x4x5" is InvalidDimensions |
| PresentBoxes.NewRejectsSigned | 2015/day_2_rust/src/present_box.rs:80-83 | "2x-3x4" is InvalidDimensions |
| PresentBoxes.NewRejectsFraction | 2015/day_2_rust/src/present_box.rs:85-88 | "2x3x3.14" is InvalidDimensions |
| PresentBoxes.NewRejectsLetter | 2015/day_2_rust/src/present_box.rs:95-98 | "ax3x4" is InvalidDimensions |
| PresentBoxes.NewAcceptsSmall | 2015/day_2_rust/src/present_box.rs:100-107 | "2x3x4" is the box 2 by 3 by 4 |
| PresentBoxes.NewAcceptsLarge | 2015/day_2_rust/src/present_box.rs:109-116 | "21x37x69" is the box 21 by 37 by 69 |
| PresentBoxes.SmallestFace | 2015/day_2_rust/src/present_box.rs:48-53 | the result is one of the three face areas and no larger than any of them |
| PresentBoxes.SurfaceAreaExtra | 2015/day_2_rust/src/present_box.rs:55-61 | the paper exceeds the plain surface area for every box with a non-zero volume |
| PresentBoxes.FacesPermuted | 2015/day_2_rust/src/present_box.rs:36-46 | rotating a box or swapping width and height only permutes its three face areas |
| PresentBoxes.OrderFree | 2015/day_2_rust/src/present_box.rs:48-61 | smallest face, surface area and paper do not depend on the order the three dimensions are given in |
| PresentBoxes.AreaExamples | 2015/day_2_rust/src/present_box.rs:119-171 | surface 52 and paper 58 for 2x3x4, smallest face 6 in all four orders of 2, 3, 4, and paper 43 for 1x1x10 |
| PresentBoxes.SurfaceA | 2015/day_2_rust/src/present_box.rs:36-38 | the length-by-width face is empty exactly when one of its sides is zero, and is at least each side when the other is positive |
| PresentBoxes.SurfaceB | 2015/day_2_rust/src/present_box.rs:40-42 | the width-by-height face is empty exactly when one of its sides is zero, and is at least each side when the other is positive |
| PresentBoxes.SurfaceC | 2015/day_2_rust/src/present_box.rs:44-46 | the height-by-length face is empty exactly when one of its sides is zero, and is at least each side when the other is positive |
| PresentBoxes.SurfaceArea | 2015/day_2_rust/src/present_box.rs:55-57 | the surface area is even and at least six times the smallest face |
| Vectors.Vector2.constructor | utils/src/vector2.rs:8-10 | a new vector holds exactly the two given i32 coordinates |
| Vectors.Vector2.Add | utils/src/vector2.rs:12-15 | adding an offset moves the vector in place by the offset's coordinates, componentwise |
| Vectors.Vector2.Up | utils/src/vector2.rs:17-19 | up is the unit offset (0, -1): y points down |
| Vectors.Vector2.Down | utils/src/vector2.rs:21-23 | down is the unit offset (0, 1) |
| Vectors.Vector2.Left | utils/src/vector2.rs:25-27 | left is the unit offset (-1, 0) |
| Vectors.Vector2.Right | utils/src/vector2.rs:29-31 | right is the unit offset (1, 0) |
| Vectors.CoordsKeyParses | 2015/day_3_rust/src/vector2.rs:33-35 | the "_at_{x}_{y}" key of a position can be read back into the same two coordinates |
| Vectors.CoordsKeyInjective | 2015/day_3_rust/src/vector2.rs:33-35 | two positions with the same key are the same position, so counting visits per key counts visits per house |
| Vectors.CoordsKeySmall | 2015/day_3_rust/src/vector2.rs:51 | the key of (3, 5) is "_at_3_5" |
| Vectors.CoordsKeyOrigin | 2015/day_3_rust/src/vector2.rs:52 | the key of (0, 0) is "_at_0_0" |
| Vectors.CoordsKeyNegative | 2015/day_3_rust/src/vector2.rs:53-56 | the key of (-10, 4) is "_at_-10_4", with the minus sign kept |
| Vectors.UpThenDownReturns | 2015/day_3_rust/src/vector2.rs:17-23 | moving up and then down returns a vector to where it was |
| Vectors.LeftThenRightReturns | 2015/day_3_rust/src/vector2.rs:25-31 | moving left and then right returns a vector to where it was |
| Vectors.AddSequence | 2015/day_3_rust/src/vector2.rs:60-71 | (3, 5) moved by (0, 1), (1, 0), (2, -3) and (0, -20) ends at (6, -17) |
| Vectors.Vector2.CoordsStr | 2015/day_3_rust/src/vector2.rs:33-35 | the key of this position reads back as this position |
| Vectors.CoordsKey | 2015/day_3_rust/src/vector2.rs:33-35 | the key starts with "_at_", is at least seven characters long, and has a minus sign right after "_at_" exactly when x is negative |
| SantaRoutes.BumpCounts | 2015/day_3_rust/src/santa_route.rs:29-30 | a visit adds its house to the keys, sets a first visit's count to 1, adds 1 to a known house and leaves every other house alone |
| SantaRoutes.SantaRoute.constructor | 2015/day_3_rust/src/santa_route.rs:16-22 | a new route has both deliverers at the origin and no visited house |
| SantaRoutes.SantaRoute.VisitHouse | 2015/day_3_rust/src/santa_route.rs:24-31 | the visit is counted at the chosen deliverer's key and no position moves |
| SantaRoutes.RouteCreation | 2015/day_3_rust/src/santa_route.rs:40-44 | a new route starts Santa at (0, 0) with no visits |
| SantaRoutes.VisitThree | 2015/day_3_rust/src/santa_route.rs:47-61 | origin, east, origin gives two houses, the origin visited twice and (1, 0) once |
| SantaRoutes.TwoHouses | 2015/day_3_rust/src/santa_route.rs:57-60 | three visits to origin, east, origin build the map {origin: 2, east: 1} of size 2 |
| SantaRoutes.RoboStaysHome | 2015/day_3_rust/src/santa_route.rs:64-75 | Robo-Santa visits three times while only Santa moves, so one house is visited three times |
| SantaRoutes.OneHouse | 2015/day_3_rust/src/santa_route.rs:74 | three visits to one key leave a map of one house with count 3 |
| SantaWalks.StepIsUnit | 2015/day_3_rust/src/main.rs:15-21 | each of '<', '>', '^', 'v' moves exactly one house and every other character stays put |
| SantaWalks.Direction | 2015/day_3_rust/src/main.rs:15-21 | the offset built for a character is the character's step |
| SantaWalks.PositionBound | 2015/day_3_rust/src/main.rs:14-24 | after n characters a deliverer is at most n houses (Manhattan distance) from the origin |
| SantaWalks.PositionInRange | 2015/day_3_rust/src/main.rs:14-24 | an input no longer than i32::MAX keeps every coordinate within i32, so the additions cannot overflow |
| SantaWalks.TallyCounts | 2015/day_3_rust/src/santa_route.rs:29-30 | counting visits key by key gives a house as a key exactly when it was visited, with its number of visits |
| SantaWalks.AloneKeys | 2015/day_3_rust/src/main.rs:11-24 | Santa alone visits one house per character plus the starting house |
| SantaWalks.AloneKeysAt | 2015/day_3_rust/src/main.rs:11-24 | the i-th visit is at the position after the first i characters |
| SantaWalks.AloneStep | 2015/day_3_rust/src/main.rs:22-23 | one more character moves Santa by its step and counts one more visit at the new house |
| SantaWalks.AloneStart | 2015/day_3_rust/src/main.rs:11-12 | before any character Santa is at the origin and the origin has one visit |
| SantaWalks.DeliverAlone | 2015/day_3_rust/src/main.rs:11-26 | the part-one loop leaves the visit counts of every prefix position, ends Santa at the walk's end and returns the number of distinct houses |
| SantaWalks.AloneHouses | 2015/day_3_rust/src/main.rs:11-26 | a house is counted in part one exactly when Santa stands on it after some prefix of the input |
| SantaWalks.MoverAlternates | 2015/day_3_rust/src/main.rs:40-47 | the deliverers strictly alternate from one character to the next |
| SantaWalks.MovesOf | 2015/day_3_rust/src/main.rs:40-47 | each deliverer's own moves are a subsequence of the input |
| SantaWalks.MovesOfTurns | 2015/day_3_rust/src/main.rs:40-47 | Santa makes the even-indexed moves and Robo-Santa the odd-indexed ones, ceil(n/2) and floor(n/2) of them |
| SantaWalks.PositionSnoc | 2015/day_3_rust/src/main.rs:22 | the walk's position after one more character is the old position moved by that character |
| SantaWalks.InTurnsOwnMoves | 2015/day_3_rust/src/main.rs:32-48 | taking turns, each deliverer ends where its own subsequence of moves alone would take it |
| SantaWalks.InTurnsInRange | 2015/day_3_rust/src/main.rs:32-48 | both deliverers stay within i32 for inputs no longer than i32::MAX |
| SantaWalks.InTurnsKeys | 2015/day_3_rust/src/main.rs:28-48 | part two counts two starting visits plus one visit per character |
| SantaWalks.InTurnsStep | 2015/day_3_rust/src/main.rs:40-47 | one character moves only the deliverer whose turn it is and counts a visit at its new house |
| SantaWalks.InTurnsStart | 2015/day_3_rust/src/main.rs:28-30 | before any character both deliverers are at the origin, which has two visits |
| SantaWalks.TakeTurn | 2015/day_3_rust/src/main.rs:33-47 | one loop iteration keeps the route consistent with the prefix read so far and keeps the same two position objects |
| SantaWalks.DeliverInTurns | 2015/day_3_rust/src/main.rs:28-50 | the part-two loop leaves the visit counts of both walks, ends each deliverer at its own subsequence's position and returns the number of distinct houses |
| NiceStrings.SumValues | 2015/day_5_rust/src/nice_string.rs:36 | summing a tally's values in u8 gives the sum of all counts, which the caller keeps within u8 |
| NiceStrings.VowelCountBounds | 2015/day_5_rust/src/nice_string.rs:19-33 | the vowel total is at least any single vowel's count and at most the length |
| NiceStrings.GetVowels | 2015/day_5_rust/src/nice_string.rs:19-33 | the map holds exactly the vowels that occur, each with its number of occurrences, and its values sum to the vowel total |
| NiceStrings.AtLeastThreeVowels | 2015/day_5_rust/src/nice_string.rs:35-37 | true exactly when the string has three or more vowels, counting repeats |
| NiceStrings.CountPositive | 2015/day_5_rust/src/nice_string.rs:22-30 | a character's count is positive exactly when it occurs |
| NiceStrings.VowelCountOfVowels | 2015/day_5_rust/src/nice_string.rs:22-30 | a string made only of vowels has as many vowels as characters |
| NiceStrings.VowelKeys | 2015/day_5_rust/src/nice_string.rs:86 | "aei" tallies three distinct vowels |
| NiceStrings.VowelTotals | 2015/day_5_rust/src/nice_string.rs:87-88 | "aaa" tallies 3 vowels and "aaaa" 4 |
| NiceStrings.DoubletStep | 2015/day_5_rust/src/nice_string.rs:49-51 | counting one more doublet keeps the tally exact: its key gains one and the total grows by one |
| NiceStrings.PairFound | 2015/day_5_rust/src/nice_string.rs:47-53 | a matching neighbour is counted and the scan skips past the pair, so the counted pairs never overlap |
| NiceStrings.GetDoublets | 2015/day_5_rust/src/nice_string.rs:39-64 | the map is the tally of the non-overlapping left-to-right letter pairs: keys are doubled letters, each counted as often as it was paired |
| NiceStrings.PairsFindDoublet | 2015/day_5_rust/src/nice_string.rs:44-61 | the non-overlapping scan finds some pair exactly when two adjacent characters are equal somewhere |
| NiceStrings.AtLeastOneDoublet | 2015/day_5_rust/src/nice_string.rs:66-68 | true exactly when some letter appears twice in a row |
| NiceStrings.DoubletExamples | 2015/day_5_rust/src/nice_string.rs:39-64 | "aaeecc" pairs a, e and c; "aaa" pairs only one a, since a counted pair is skipped |
| NiceStrings.DoubletKeys | 2015/day_5_rust/src/nice_string.rs:100 | "aaeecc" has three doublet keys |
| NiceStrings.ContainsOccurs | 2015/day_5_rust/src/nice_string.rs:73 | containment is the existence of an occurrence at some position |
| NiceStrings.NotContainsForbidden | 2015/day_5_rust/src/nice_string.rs:70-78 | true exactly when none of "ab", "cd", "pq", "xy" occurs |
| NiceStrings.ForbiddenPairs | 2015/day_5_rust/src/nice_string.rs:71-76 | containing a forbidden string is the same as having two adjacent characters forming ab, cd, pq or xy |
| NiceStrings.ForbiddenChecks | 2015/day_5_rust/src/nice_string.rs:110-112 | "abc" and "cdd" contain a forbidden string and "aad" does not |
| NiceStrings.CheckString | 2015/day_5_rust/src/nice_string.rs:9-17 | Nice exactly when there are three vowels, a doubled letter and no forbidden pair; the doublet scan runs only after the vowel test passes |
| NiceStrings.ThreeVowels | 2015/day_5_rust/src/nice_string.rs:35-37 | vowels at three distinct positions make at least three vowels |
| NiceStrings.NiceLetters | 2015/day_5_rust/src/nice_string.rs:116 | "ugknbfddgicrmopn" is nice |
| NiceStrings.NiceTripleA | 2015/day_5_rust/src/nice_string.rs:117 | "aaa" is nice |
| NiceStrings.NaughtyNoDoublet | 2015/day_5_rust/src/nice_string.rs:118 | "jchzalrnumimnmhp" is naughty: no letter is doubled |
| NiceStrings.NaughtyForbidden | 2015/day_5_rust/src/nice_string.rs:119 | "haegwjzuvuyypxyu" is naughty: it holds "xy" |
| NiceStrings.CheckStringExamples | 2015/day_5_rust/src/nice_string.rs:114-121 | check_string gives Nice, Nice, Naughty, Naughty on the four strings of the source's test |
| CoordinateText.KeptCoordinates | 2015/day_6_rust/src/vector2_ext.rs:20 | only the comma-separated parts that read as an i32 are kept, at most one per part |
| CoordinateText.ReadableIndices | 2015/day_6_rust/src/vector2_ext.rs:20 | the positions of the readable parts lie inside the list of parts |
| CoordinateText.KeptCoordinatesExact | 2015/day_6_rust/src/vector2_ext.rs:20 | the kept coordinates are exactly the parts that read as i32, read, in order: the k-th kept value is the k-th readable part, readable positions increase, and every readable part is kept |
| CoordinateText.ParseVector | 2015/day_6_rust/src/vector2_ext.rs:15-27 | EmptyValue exactly for the empty text; a parsed pair holds two i32 values |
| CoordinateText.NewFromStr | 2015/day_6_rust/src/vector2_ext.rs:15-27 | the vector is built exactly when the text reads as a pair, with the pair's coordinates; otherwise the same error is returned |
| CoordinateText.KeptOfConcat | 2015/day_6_rust/src/vector2_ext.rs:20 | the kept coordinates of two lists of parts are those of each list, in order |
| CoordinateText.ParseRendered | 2015/day_6_rust/src/vector2_ext.rs:15-27 | round trip: "x,y" for any two i32 values reads back as (x, y) |
| CoordinateText.ParseDropsUnreadable | 2015/day_6_rust/src/vector2_ext.rs:20 | an unreadable middle part is silently dropped, so "x,junk,y" still reads as (x, y) |
| CoordinateText.ParseRejectsThree | 2015/day_6_rust/src/vector2_ext.rs:22-24 | three readable coordinates are InvalidFormat |
| CoordinateText.ParseRejectsOne | 2015/day_6_rust/src/vector2_ext.rs:22-24 | a lone coordinate is InvalidFormat |
| CoordinateText.ParseRejectsJunkPair | 2015/day_6_rust/src/vector2_ext.rs:22-24 | one readable and one unreadable part, in either order, are InvalidFormat |
| CoordinateText.ParseRejectedExamples | 2015/day_6_rust/src/vector2_ext.rs:36-70 | "" is EmptyValue; "33", "3,3,3", "a,3" and "3,a" are InvalidFormat |
| CoordinateText.ParseAcceptedExamples | 2015/day_6_rust/src/vector2_ext.rs:72-82 | "0,0" and "999,999" read as themselves, and "3,a,4" reads as (3, 4) |
| Lights.VectorToIndex | 2015/day_6_rust/src/lights.rs:23-25 | an in-bounds position has an index inside the 1000x1000 buffer |
| Lights.IndexToVector | 2015/day_6_rust/src/lights.rs:27-31 | an index inside the buffer gives an in-bounds position, and that position maps back to the index |
| Lights.VectorIndexRoundTrip | 2015/day_6_rust/src/lights.rs:23-31 | an in-bounds position maps to an index inside the 1000x1000 grid and back to the same position |
| Lights.IndexVectorRoundTrip | 2015/day_6_rust/src/lights.rs:23-31 | every grid index maps to an in-bounds position and back to the same index, so positions and cells correspond one to one |
| Lights.CornerOrderIrrelevant | 2015/day_6_rust/src/lights.rs:63-71 | sorting the corners makes the rectangle independent of which corners are given first or crosswise |
| Lights.Switched | 2015/day_6_rust/src/lights.rs:78-82 | part one leaves every light at 0 or 1, and toggle flips an on/off light |
| Lights.Dimmed | 2015/day_6_rust/src/lights.rs:104-108 | part two moves a light by at most one down and two up, and only turn off lowers it |
| Lights.SwitchedFacts | 2015/day_6_rust/src/lights.rs:78-82 | turn on and turn off ignore the light's state; toggle gives 1 exactly on a light that was 0 |
| Lights.DimmedFacts | 2015/day_6_rust/src/lights.rs:104-108 | turn off undoes turn on, toggle is turn on twice, and a light ends at 0 exactly when turn off meets a light of at most 1 |
| Lights.DimmedAllBounds | 2015/day_6_rust/src/lights.rs:97-111 | after a run of commands covering a light, its brightness is at most the start plus one per turn on and two per toggle, and falls short of that by at most one per turn off |
| Lights.TogglesParity | 2015/day_6_rust/src/lights.rs:73-85 | on an on/off light, n toggles leave it at (light + n) mod 2 |
| Lights.SwitchedAllForgets | 2015/day_6_rust/src/lights.rs:73-85 | after a turn on or turn off, neither the earlier commands nor the starting state matter |
| Lights.Lights.constructor | 2015/day_6_rust/src/lights.rs:11-17 | the grid has 1000 * 1000 lights, all 0 |
| Lights.Lights.Get | 2015/day_6_rust/src/lights.rs:33-45 | a position yields a light exactly when it is inside the grid, and then it is that position's cell |
| Lights.Lights.Set | 2015/day_6_rust/src/lights.rs:47-60 | the write succeeds exactly inside the grid; only that position's cell changes |
| Lights.Lights.Exec | 2015/day_6_rust/src/lights.rs:62-86 | every light inside the rectangle is switched by the operation and every light outside keeps its value |
| Lights.Lights.ExecPt2 | 2015/day_6_rust/src/lights.rs:88-112 | every light inside the rectangle is brightened or dimmed by the operation and every light outside keeps its value |
| WireKit.AndLeftOperand | 2015/day_7_rust/src/wire_kit.rs:272-283 | the left operand of AND is a constant exactly when it reads as a u16, and a wire name otherwise |
| WireKit.ParseInstruction | 2015/day_7_rust/src/wire_kit.rs:203-356 | a literal writes a lower-case wire; every recognised gate is well formed and drives a lower-case wire |
| WireKit.Tag | 2015/day_7_rust/src/wire_kit.rs:203-356 | the returned Process is Error exactly when the line was rejected |
| WireKit.ParseLiteralLine | 2015/day_7_rust/src/wire_kit.rs:219-235 | "N -> w" sets w to N when N fits in u16, and is rejected otherwise |
| WireKit.ParseRelayLine | 2015/day_7_rust/src/wire_kit.rs:237-253 | "x -> w" connects w to wire x |
| WireKit.ParseNotLine | 2015/day_7_rust/src/wire_kit.rs:255-270 | "NOT x -> w" connects w to the complement of x |
| WireKit.ParseAndLine | 2015/day_7_rust/src/wire_kit.rs:272-294 | "p AND y -> w" connects w to p AND y, p being a constant or a wire |
| WireKit.ParseOrLine | 2015/day_7_rust/src/wire_kit.rs:296-315 | "x OR y -> w" connects w to x OR y |
| WireKit.ParseShiftLine | 2015/day_7_rust/src/wire_kit.rs:317-353 | "x LSHIFT n -> w" and "x RSHIFT n -> w" connect w to the shift, or are rejected when n is not a u16 |
| WireKit.ParseEmptyLine | 2015/day_7_rust/src/wire_kit.rs:367 | the empty line is rejected |
| WireKit.Fire | 2015/day_7_rust/src/wire_kit.rs:99-187 | a gate aborts exactly when it is malformed, with its own error; a gate that fires writes only its own output and only when all its inputs carry signals |
| WireKit.KnownInputsFire | 2015/day_7_rust/src/wire_kit.rs:101-186 | a well-formed gate whose inputs all carry signals (and whose shift is below 16) always fires |
| WireKit.NotIsComplement | 2015/day_7_rust/src/wire_kit.rs:110-111 | NOT on 16 bits is 0xFFFF minus the value |
| WireKit.LShiftDropsHighBits | 2015/day_7_rust/src/wire_kit.rs:174-178 | LSHIFT keeps only the low 16 bits of the value times 2^n |
| WireKit.ResetOutputs | 2015/day_7_rust/src/wire_kit.rs:88-93 | every gate output becomes unknown, every other wire keeps its value, and no other wire is added |
| WireKit.ResetIdempotent | 2015/day_7_rust/src/wire_kit.rs:88-93 | resetting twice is the same as resetting once |
| WireKit.StoppedStaysStopped | 2015/day_7_rust/src/wire_kit.rs:99-188 | once a sweep has aborted or panicked, the remaining gates change nothing |
| WireKit.PanicPropagates | 2015/day_7_rust/src/wire_kit.rs:99-188 | a gate that panics (unwrap on a missing wire, a shift of 16 or more) makes the whole evaluation panic |
| WireKit.SweepPrefixMonotone | 2015/day_7_rust/src/wire_kit.rs:99-187 | a sweep adds only gate outputs, never turns a known wire unknown and never touches a non-output wire |
| WireKit.SweepsMonotone | 2015/day_7_rust/src/wire_kit.rs:95-200 | the same over repeated sweeps: the number of unknown wires never grows and inputs are never changed |
| WireKit.PassLeavesNoUnknown | 2015/day_7_rust/src/wire_kit.rs:95-200 | a sweep sequence returns Ok only with no unknown wire left |
| WireKit.Evaluate | 2015/day_7_rust/src/wire_kit.rs:95-200 | the evaluation returns Ok only with no unknown wire left, and without any sweep allowed it is still sweeping |
| WireKit.PassMeansAllKnown | 2015/day_7_rust/src/wire_kit.rs:190-200 | the evaluation returns Ok only once every wire carries a signal |
| WireKit.MoreFuel | 2015/day_7_rust/src/wire_kit.rs:95-200 | an evaluation that has returned gives the same result whatever larger number of sweeps is allowed |
| WireKit.FirstMalformedAborts | 2015/day_7_rust/src/wire_kit.rs:99-187 | the first malformed gate reached aborts the evaluation with its error, keeping the wires as they were before it |
| WireKit.ParsedGatesNeverAbort | 2015/day_7_rust/src/wire_kit.rs:203-356 | gates built by the parser never take the malformed-gate error paths |
| WireKit.SafeGateFires | 2015/day_7_rust/src/wire_kit.rs:99-187 | a well-formed gate whose operands exist and whose shift is below 16 neither panics nor aborts |
| WireKit.SafeSweepRuns | 2015/day_7_rust/src/wire_kit.rs:99-188 | a sweep over such gates runs to the end without adding wires |
| WireKit.PrefixKeepsSignals | 2015/day_7_rust/src/wire_kit.rs:99-188 | a wire known after some gates stays known after more gates |
| WireKit.SweepResolvesRank | 2015/day_7_rust/src/wire_kit.rs:98-198 | in an acyclic circuit (outputs ranked below their readers) one sweep resolves one more rank |
| WireKit.RankedSweepsPass | 2015/day_7_rust/src/wire_kit.rs:98-200 | an acyclic circuit of depth n returns Ok within n sweeps |
| WireKit.RankedCircuitPasses | 2015/day_7_rust/src/wire_kit.rs:95-200 | evaluating an acyclic, well-formed circuit returns Ok |
| WireKit.WiresKit.constructor | 2015/day_7_rust/src/wire_kit.rs:81-86 | a new kit has no wires and no connections |
| WireKit.WiresKit.ProcessInstruction | 2015/day_7_rust/src/wire_kit.rs:203-356 | a literal sets its wire, a gate is appended to the connections, a rejected line changes nothing, and the Process tag names the kind |
| WireKit.WiresKit.ResetAllWiresExceptInputs | 2015/day_7_rust/src/wire_kit.rs:88-93 | the wires become the reset of the old wires over the connections |
| WireKit.WiresKit.VisitGate | 2015/day_7_rust/src/wire_kit.rs:100-187 | one gate's effect on the wires, and the error it reports when malformed |
| WireKit.WiresKit.EvaluateCircuit | 2015/day_7_rust/src/wire_kit.rs:95-201 | the loop's result and final wires are those of the sweep model |
| WireKit.WiresKit.SweepGates | 2015/day_7_rust/src/wire_kit.rs:99-188 | one pass of the gate loop either leaves the wires as the sweep model's full pass or stops with the error the sweep sequence returns |
| WireKitExamples.ParsesLiteralSample | 2015/day_7_rust/src/wire_kit.rs:369-374 | "123 -> x" sets x to 123 |
| WireKitExamples.ParsesAndSample | 2015/day_7_rust/src/wire_kit.rs:383-386 | "x AND y -> d" is an AND gate on wires x and y |
| WireKitExamples.ParsesOrSample | 2015/day_7_rust/src/wire_kit.rs:387-390 | "x OR y -> e" is an OR gate |
| WireKitExamples.ParsesShiftSamples | 2015/day_7_rust/src/wire_kit.rs:391-398 | "x LSHIFT 2 -> f" and "y RSHIFT 2 -> g" are shifts by 2 |
| WireKitExamples.ParsesNotSample | 2015/day_7_rust/src/wire_kit.rs:399-402 | "NOT x -> h" is a NOT gate |
| WireKitExamples.SampleGateValues | 2015/day_7_rust/src/wire_kit.rs:424-440 | with x = 123 and y = 456: AND 72, OR 507, LSHIFT 492, RSHIFT 114, NOT 65412 and 65079 |
| WireKitExamples.SampleResets | 2015/day_7_rust/src/wire_kit.rs:409-418 | the reset before evaluation keeps x and y and marks d to i unknown |
| WireKitExamples.EvaluatesSample | 2015/day_7_rust/src/wire_kit.rs:405-447 | the sample circuit evaluates in one sweep to Ok with d, e, f, g, h, i at 72, 507, 492, 114, 65412, 65079 and x, y unchanged |
| WireKitExamples.RelayCycleNeverReturns | 2015/day_7_rust/src/wire_kit.rs:98-198 | two wires relaying each other never become known: the loop sweeps forever |
| CircuitRun.RunWithOverride | 2015/day_7_rust/src/main.rs:24-57 | the driver evaluates, reads a, pins b to a, evaluates again and reads a; each step's result is that of the model functions |
| CircuitRun.DriverResetIsRedundant | 2015/day_7_rust/src/main.rs:40-43 | the driver's own reset before the second evaluation changes nothing, since evaluation resets first |
| CircuitRun.PinSurvivesWhenUndriven | 2015/day_7_rust/src/main.rs:42-43 | when no gate drives b, the pinned value of b survives the second evaluation |
| CircuitRun.PinLostWhenDriven | 2015/day_7_rust/src/main.rs:40-43 | when a gate drives b, the reset inside evaluation makes b unknown again, so the pinned value is lost |
| CircuitRun.RelayOverride | 2015/day_7_rust/src/main.rs:24-52 | with the single gate "b -> a" and every wire known after the first run, the second run returns Ok in one sweep with b and a both holding the first run's a |
| EscapeText.HexValue | 2015/day_8_rust/src/main.rs:18 | a hex digit (either case) is worth less than 16 |
| EscapeText.HexChar | 2015/day_8_rust/src/main.rs:16-20 | a \xHH escape decodes to a single character below 256, the u8 value of its two hex digits |
| EscapeText.Utf8Width | 2015/day_8_rust/src/main.rs:8 | a character takes one to four bytes in UTF-8 |
| EscapeText.Utf8Length | 2015/day_8_rust/src/main.rs:8 | a string's byte length is at least its number of characters |
| EscapeText.Utf8LengthAppend | 2015/day_8_rust/src/main.rs:8 | byte length is additive over concatenation |
| EscapeText.Utf8LengthAscii | 2015/day_8_rust/src/main.rs:8 | an ASCII string has as many bytes as characters |
| EscapeText.HexPassShrinks | 2015/day_8_rust/src/main.rs:16-20 | the hex pass never makes the text longer in bytes: four bytes become at most two |
| EscapeText.EscapePassShrinks | 2015/day_8_rust/src/main.rs:22-25 | the escape pass never makes the text longer in bytes: two characters become one |
| EscapeText.Clean | 2015/day_8_rust/src/main.rs:11-28 | the cleaned text is at least two bytes shorter than the line (the quotes go and neither pass lengthens) |
| EscapeText.CharCount | 2015/day_8_rust/src/main.rs:7-9 | the character count is at most the line's byte length minus 2 |
| EscapeText.Contribution | 2015/day_8_rust/src/main.rs:43 | a line adds its byte length minus its cleaned byte length, and always at least 2 (the quotes) |
| EscapeText.TotalAtLeast | 2015/day_8_rust/src/main.rs:34-44 | the total is at least twice the number of lines |
| EscapeText.Total | 2015/day_8_rust/src/main.rs:34-44 | the loop sums every line's contribution |
| EscapeText.HexPassEscaped | 2015/day_8_rust/src/main.rs:16-20 | on text escaped by doubling backslashes and quotes, with no \x in the original, the hex pass changes nothing |
| EscapeText.EscapedPair | 2015/day_8_rust/src/main.rs:13-16 | an escaped backslash or quote is skipped as a whole by the hex pass |
| EscapeText.EscapedHead | 2015/day_8_rust/src/main.rs:14 | the first character of an escaped text is its backslash or the original character |
| EscapeText.EscapePassEscaped | 2015/day_8_rust/src/main.rs:22-25 | the escape pass undoes escaping: each backslash pair becomes its second character |
| EscapeText.CleanQuoted | 2015/day_8_rust/src/main.rs:11-28 | round trip: quoting and escaping any text without \x, then cleaning, gives the text back |
| EscapeText.HexBeforeEscape | 2015/day_8_rust/src/main.rs:16-25 | "\\x41" quoted cleans to "A", since the hex pass runs before the escape pass (as written) |
| EscapeText.CleanHexExamples | 2015/day_8_rust/src/main.rs:57-59 | "\x27", "\x2A" and "\x3D" clean to "'", "*" and "=" |
| EscapeText.HexExample | 2015/day_8_rust/src/main.rs:16-28 | a quoted lone hex escape cleans to its one decoded character |
| EscapeText.CountEmpty | 2015/day_8_rust/src/main.rs:64 | the empty quoted string has 0 characters |
| EscapeText.CountPlain | 2015/day_8_rust/src/main.rs:65 | "abc" quoted has 3 |
| EscapeText.CountEscapedQuote | 2015/day_8_rust/src/main.rs:66 | "aaa\"aaa" quoted has 7 |
| EscapeText.CountApostrophe | 2015/day_8_rust/src/main.rs:67 | a quoted apostrophe has 1 |
| EscapeText.WideHexEscape | 2015/day_8_rust/src/main.rs:18-19 | \xaa decodes to U+00AA, two bytes in UTF-8, so its cleaned byte count is 2 |
| EscapeText.NoBackslash | 2015/day_8_rust/src/main.rs:13 | a text without backslashes has no \x |
| EscapeText.EscapedAppend | 2015/day_8_rust/src/main.rs:14 | escaping is a homomorphism over concatenation |
| EscapeText.EscapedPlain | 2015/day_8_rust/src/main.rs:14 | a text without backslashes or quotes escapes to itself |
| EscapeText.HexStep | 2015/day_8_rust/src/main.rs:16-20 | between escaped backslash-free texts the hex pass decodes exactly the one escape |
| EscapeText.EscapeStep | 2015/day_8_rust/src/main.rs:22-25 | the escape pass unescapes both sides and keeps a decoded middle character that is not a backslash |
| EscapeText.WidthBetween | 2015/day_8_rust/src/main.rs:8 | an ASCII text around one character has its lengths plus that character's UTF-8 width |
| EscapeText.HexBetween | 2015/day_8_rust/src/main.rs:8-28 | a quoted line with one hex escape amid escaped ASCII counts both sides plus the decoded character's width |
| EscapeText.HexAA | 2015/day_8_rust/src/main.rs:18-19 | \xaa decodes to U+00AA, two bytes wide |
| EscapeText.MixedTexts | 2015/day_8_rust/src/main.rs:69 | the two sides of the long sample line are ASCII, backslash-free, of lengths 23 and 8 |
| EscapeText.CountMixed | 2015/day_8_rust/src/main.rs:68-71 | the long sample line cleans to 33 bytes: 31 ASCII characters plus the two-byte U+00AA |
| EscapeText.HexPass | 2015/day_8_rust/src/main.rs:16-20 | the hex pass never makes the text longer, and leaves text without a backslash unchanged |
| EscapeText.EscapePass | 2015/day_8_rust/src/main.rs:22-25 | the escape pass never makes the text longer, and leaves text without a backslash unchanged |
| Calories.GroupElves | 2022/day1_ts/solution.ts:16-29 | a non-empty input always yields at least one elf |
| Calories.GroupElvesCount | 2022/day1_ts/solution.ts:18-24 | one elf per blank line, plus one for the first line when it is not blank |
| Calories.GroupElvesNames | 2022/day1_ts/solution.ts:19-22 | the k-th elf is named "Elf k", numbered from 1 in input order |
| Calories.GroupElvesTotal | 2022/day1_ts/solution.ts:25-27 | the elves' calories add up to the sum of all the numeric lines: every line is credited to exactly one elf |
| Calories.Sink | 2022/day1_ts/solution.ts:31 | one insertion step extends the sorted prefix by one elf and only permutes the array |
| Calories.SortByCalories | 2022/day1_ts/solution.ts:31 | the elves end up sorted by calories, most first, and are a permutation of the input |
| Calories.TopElfIsMax | 2022/day1_ts/solution.ts:42 | the first elf of the sorted list carries at least as many calories as any elf |
| Calories.CaloriesOfPermutation | 2022/day1_ts/solution.ts:31 | permuting elves permutes their calorie values |
| Calories.NonIncreasingUnique | 2022/day1_ts/solution.ts:31 | two non-increasing sequences with the same elements are equal, whatever sort produced them |
| Calories.CaloriesSumOf | 2022/day1_ts/solution.ts:46-49 | lists with the same calorie values have the same calorie sum |
| Calories.RankedCaloriesDetermined | 2022/day1_ts/solution.ts:31-49 | any two descending orders of the same elves agree on all calorie values, the top elf's calories and the top-three sum, so ties do not change the reported numbers |
| Calories.TopThree | 2022/day1_ts/solution.ts:33-40 | the top-three reduce keeps exactly the first min(3, n) elves, in order |
| Calories.JoinNamesListed | 2022/day1_ts/solution.ts:43-45 | the name reduce writes the names in order separated by ", ", as long as no name is empty |
| Calories.Rank | 2022/day1_ts/solution.ts:12-49 | the elves come out sorted and are a permutation of the grouped input; the top elf is the first; the names and the total are those of the first three |
| JsNumbers.LeadingDigits | 2022/day1_ts/solution.ts:26 | the digits the model's parseInt reads are the longest run of decimal digits at the start of the text |
| JsNumbers.LeadingDigitsOf | 2022/day1_ts/solution.ts:26 | digits followed by a non-digit read as exactly those digits |
| JsNumbers.ParseIntOfDecimal | 2022/day1_ts/solution.ts:26 | a number written in decimal, followed by anything not starting with a digit, parses back to itself |
| JsNumbers.ParseInt | 2022/day1_ts/solution.ts:26 | the model's parseInt gives a number exactly when the text starts with a decimal digit, and a lone leading digit reads as its own value |
| JsNumbers.NarrowerThanJavaScript | 2022/day1_ts/solution.ts:26 | the cases where the model's parseInt differs from JavaScript's: " 12", "+12" and "-12" give None, and "0x1A" and "0x" read as 0 |
| Calories.ElfName | 2022/day1_ts/solution.ts:20 | an elf name is "Elf " followed by text that parseInt reads back as the elf's number |
| Calories.CaloriesSum | 2022/day1_ts/solution.ts:46-49 | no single elf carries more calories than the sum over the list |
| Calories.JoinNames | 2022/day1_ts/solution.ts:43-45 | the joined text is empty exactly when every name is empty, and it ends with the last elf's name |
| Calibration.Digits | 2023/day1_rust/src/part_one.rs:2 | the kept characters are decimal digits and there are no more of them than characters |
| Calibration.Combine | 2023/day1_rust/src/part_one.rs:4-11 | no digits is the "No digits found" error; otherwise the value is ten times the first digit plus the last, below 100 |
| Calibration.CalibrationValue | 2023/day1_rust/src/part_one.rs:1-12 | an error, "No digits found", exactly when the line has no digit; otherwise a value below 100 |
| Calibration.DigitsAppend | 2023/day1_rust/src/part_one.rs:2 | filtering digits distributes over concatenation |
| Calibration.DigitsNone | 2023/day1_rust/src/part_one.rs:2 | a line without digits keeps nothing |
| Calibration.DigitsSome | 2023/day1_rust/src/part_one.rs:2 | a line with a digit keeps at least one |
| Calibration.CalibrationByPositions | 2023/day1_rust/src/part_one.rs:1-12 | the value is formed from the first and the last digit of the line, wherever they stand |
| Calibration.CalibrationError | 2023/day1_rust/src/part_one.rs:4-7 | the error occurs exactly when the line has no digit, and it is "No digits found" |
| Calibration.ExampleEnds | 2023/day1_rust/src/main.rs:38 | "1abc2" gives 12 |
| Calibration.ExampleInner | 2023/day1_rust/src/main.rs:39 | "pqr3stu8vwx" gives 38 |
| Calibration.ExampleMany | 2023/day1_rust/src/main.rs:40 | "a1b2c3d4e5f" gives 15 |
| Calibration.ExampleLone | 2023/day1_rust/src/main.rs:41 | "treb7uchet" gives 77, the one digit being first and last |
| Calibration.ExampleNone | 2023/day1_rust/src/main.rs:42-45 | "trebuchet" has no digits |
| SpelledCalibration.NameAt | 2023/day1_rust/src/part_two.rs:16-24 | a found name index is one of the ten names, at or after the search start |
| SpelledCalibration.NameAtFirst | 2023/day1_rust/src/part_two.rs:16-24 | the found name starts at the position and no earlier name in the dictionary does; none found means no name starts there |
| SpelledCalibration.FoundAt | 2023/day1_rust/src/part_two.rs:11-26 | each position contributes at most one digit |
| SpelledCalibration.DigitsFrom | 2023/day1_rust/src/part_two.rs:9-27 | everything collected is a decimal digit |
| SpelledCalibration.CalibrationValueWords | 2023/day1_rust/src/part_two.rs:1-37 | the loop collects the digits of the model scan and combines the first and last of them |
| SpelledCalibration.NoNamesDigits | 2023/day1_rust/src/part_two.rs:9-27 | where no name is spelled, the scan collects the same digits as part one's filter |
| SpelledCalibration.AgreesWithPartOne | 2023/day1_rust/src/part_two.rs:1-37 | on lines without spelled names part two gives part one's value |
| SpelledCalibration.EmptyLine | 2023/day1_rust/src/main.rs:75 | the empty line has no digits |
| SpelledCalibration.NamesOpen | 2023/day1_rust/src/part_two.rs:3-5 | every name has at least three letters and no two names share their first two letters |
| SpelledCalibration.Miss | 2023/day1_rust/src/part_two.rs:16-25 | a non-digit position where no name can start adds nothing and moves on by one |
| SpelledCalibration.Hit | 2023/day1_rust/src/part_two.rs:16-25 | a name starting at a position adds its digit and the scan moves on by one character only, so names may overlap |
| SpelledCalibration.LastFrom | 2023/day1_rust/src/part_two.rs:29-32 | the last digit from an earlier position is the last digit from any later position that still has one |
| SpelledCalibration.EightTwoThree | 2023/day1_rust/src/main.rs:51 | "eightwothree" gives 83, the overlapping "two" being read as well |
| SpelledCalibration.ZoneEight | 2023/day1_rust/src/main.rs:55 | "zoneight234" gives 14 |
| SpelledCalibration.TwoOne | 2023/day1_rust/src/part_two.rs:9-27 | "twone" collects 2 and then 1, so it gives 21 |
| SpelledCalibration.SpelledOne | 2023/day1_rust/src/main.rs:66 | "one" gives 11 |
| SpelledCalibration.SpelledZero | 2023/day1_rust/src/main.rs:65 | "zero" gives 0: "zero" is a name and its digit is 0 |
| SpelledCalibration.ValueFromEnds | 2023/day1_rust/src/part_two.rs:29-36 | for any line, the first kept digit and the last kept digit, wherever they are found, form the value |
| SpelledCalibration.TwoOneNine | 2023/day1_rust/src/main.rs:50 | "two1nine " gives 29 |
| SpelledCalibration.AbcOneThree | 2023/day1_rust/src/main.rs:52 | "abcone2threexyz " gives 13 |
| SpelledCalibration.XTwoFour | 2023/day1_rust/src/main.rs:53 | "xtwone3four " gives 24, "two" being read before the overlapping "one" |
| SpelledCalibration.FourNineTwo | 2023/day1_rust/src/main.rs:54 | "4nineeightseven2 " gives 42 |
| SpelledCalibration.SevenSixteen | 2023/day1_rust/src/main.rs:56 | "7pqrstsixteen " gives 76 |
| EngineSchematic.IsValidPartCoords | 2023/day3_rust/src/main.rs:7-29 | true exactly when some symbol (neither '.' nor a digit) lies in the rows above, on and below the number, from one column before it to one after it, clipped to the grid |
| EngineSchematic.RunEnd | 2023/day3_rust/src/main.rs:37-41 | a digit run extends as far as the digits go and stops at the first non-digit or the line's end |
| EngineSchematic.RunsFromMaximal | 2023/day3_rust/src/main.rs:37-53 | every run the scan flushes is a maximal block of digits of the line |
| EngineSchematic.RunsFromOrdered | 2023/day3_rust/src/main.rs:37-53 | the runs come left to right and do not touch |
| EngineSchematic.RunsFromCover | 2023/day3_rust/src/main.rs:37-53 | every digit of the line belongs to some run |
| EngineSchematic.RunsExact | 2023/day3_rust/src/main.rs:33-55 | the runs of a line are exactly its maximal digit blocks, in order, covering every digit |
| EngineSchematic.FoldDigitsValue | 2023/day3_rust/src/main.rs:45-47 | the fold over the pocket gives the decimal value of the digits |
| EngineSchematic.RunEndAt | 2023/day3_rust/src/main.rs:37-43 | a digit block ended by a non-digit or the line's end is the run starting there |
| EngineSchematic.PartsAfterRuns | 2023/day3_rust/src/main.rs:37-55 | the part numbers found from a position are the valid runs from that position, in order |
| EngineSchematic.PartsSkip | 2023/day3_rust/src/main.rs:41-53 | a non-digit outside a run adds no part number |
| EngineSchematic.PartsFlush | 2023/day3_rust/src/main.rs:42-52 | at the end of a run its number is reported when adjacent to a symbol, then the scan continues after it |
| EngineSchematic.FlushPocket | 2023/day3_rust/src/main.rs:42-52 | the flushed pocket yields its number exactly when its coordinates are valid |
| EngineSchematic.RowParts | 2023/day3_rust/src/main.rs:34-55 | one line's scan, including the virtual '.' one past the end, reports the valid runs' numbers in order |
| EngineSchematic.GetValidParts | 2023/day3_rust/src/main.rs:31-58 | the result is every part number of the schematic, line by line and left to right |
| EngineSample.SymbolAt | 2023/day3_rust/src/main.rs:13-25 | a symbol inside the window makes the coordinates valid |
| EngineSample.SliceFitsEven | 2023/day3_rust/src/main.rs:17-19 | on a rectangular grid every slice start is inside its row |
| EngineSample.FoldTwo | 2023/day3_rust/src/main.rs:45-47 | two digits fold to their two-digit value |
| EngineSample.FoldThree | 2023/day3_rust/src/main.rs:45-47 | three digits fold to their three-digit value |
| EngineSample.CoordsExamples | 2023/day3_rust/src/main.rs:91-94 | 467 at row 0 and 35 and 633 are adjacent to symbols; 114 at row 0 is not |
| EngineSample.CheckCoords | 2023/day3_rust/src/main.rs:76-95 | the method answers the four coordinate tests as true, false, true, true |
| EngineSample.Lone114 | 2023/day3_rust/src/main.rs:92 | no symbol touches 114 in the second sample |
| EngineSample.PartsRow0 | 2023/day3_rust/src/main.rs:100 | row "467..114.." reports only 467 |
| EngineSample.PartsRow2 | 2023/day3_rust/src/main.rs:102 | row "..35..633." reports 35 and 633 |
| EngineSample.PartsRow4 | 2023/day3_rust/src/main.rs:104 | row "617*......" reports 617 |
| EngineSample.PartsRow5 | 2023/day3_rust/src/main.rs:105 | row ".....+.58." reports nothing: 58 touches no symbol |
| EngineSample.PartsRow6 | 2023/day3_rust/src/main.rs:106 | row "..592....." reports 592 |
| EngineSample.PartsRow7 | 2023/day3_rust/src/main.rs:107 | row "......755." reports 755 |
| EngineSample.PartsRow9 | 2023/day3_rust/src/main.rs:109 | row ".664.598.." reports 664 and 598 |
| EngineSample.PartsBlankRows | 2023/day3_rust/src/main.rs:101-108 | rows without digits report nothing |
| EngineSample.PartNumbersByRows | 2023/day3_rust/src/main.rs:33-57 | the result is the rows' results concatenated |
| EngineSample.SamplePartNumbers | 2023/day3_rust/src/main.rs:98-114 | the sample's part numbers are 467, 35, 633, 617, 592, 755, 664, 598 |
| EngineSample.FoldBelow | 2023/day3_rust/src/main.rs:45-47 | an n-digit fold is below 10^n |
| EngineSample.ShortRun | 2023/day3_rust/src/main.rs:45-47 | a run in a ten-column row fits in u32 |
| EngineSample.SampleScannable | 2023/day3_rust/src/main.rs:98-111 | the sample grid meets the slice and u32 conditions of the scan |
| EngineSample.SampleSum | 2023/day3_rust/src/main.rs:113-114 | the part numbers sum to 4361 |
| EngineSample.SampleParts | 2023/day3_rust/src/main.rs:97-115 | the scan of the sample returns those eight numbers, which sum to 4361 |
| ScratchCards.ParseU32 | 2023/day4_rust/src/card.rs:40 | a token is kept only as a u32 |
| ScratchCards.KeptNumbers | 2023/day4_rust/src/card.rs:38-41 | at most one number per token, and every kept number fits in u32 |
| ScratchCards.KeptNumbersExact | 2023/day4_rust/src/card.rs:38-50 | every readable token's value is kept, every kept value comes from a readable token, and nothing is lost when all tokens read |
| ScratchCards.KeptEmptyIff | 2023/day4_rust/src/card.rs:38-50 | a number list comes out empty exactly when none of its tokens reads as u32 |
| ScratchCards.NewCard | 2023/day4_rust/src/card.rs:19-62 | an accepted card has a name without ':', a u32 number, and non-empty lists of u32 values |
| ScratchCards.NewCardContract | 2023/day4_rust/src/card.rs:19-62 | each error exactly when its check fails after the earlier ones pass: NoNameSeparator iff the line does not have exactly one ':', NoNumberInName iff the name's second token is not a u32, NoNumbersSeparator iff the content does not have exactly one vertical bar, NoWinningNumbers iff no winning token reads as u32, NoNumbers iff no drawn token does; an accepted card is the name verbatim, its number, and the readable tokens of each side in order |
| ScratchCards.SplitCount | 2023/day4_rust/src/card.rs:20-21 | splitting on a separator gives one more part than there are separators |
| ScratchCards.Matches | 2023/day4_rust/src/card.rs:64-70 | a card has no more matches than drawn numbers |
| ScratchCards.MatchesContract | 2023/day4_rust/src/card.rs:64-70 | a drawn number is a match exactly when it is a winning number, and each match is kept as often as it was drawn |
| ScratchCards.Pow2 | 2023/day4_rust/src/card.rs:72-84 | powers of two are positive |
| ScratchCards.PointsDouble | 2023/day4_rust/src/card.rs:78-82 | each extra match doubles the points |
| ScratchCards.CalculatePoints | 2023/day4_rust/src/card.rs:72-84 | the loop scores 0 for no match and 2^(m-1) for m matches, within u32 |
| ScratchCards.Pow2Add | 2023/day4_rust/src/card.rs:79-81 | doubling a times and then b times is doubling a + b times |
| ScratchCards.Pow2Monotone | 2023/day4_rust/src/card.rs:79-81 | more doublings never give fewer points |
| ScratchCards.PointsBound | 2023/day4_rust/src/card.rs:72-84 | up to 32 matches the points fit in u32 |
| ScratchCards.MatchesSnoc | 2023/day4_rust/src/card.rs:64-70 | one more drawn number adds itself to the matches exactly when it wins |
| ScratchCards.NoWinnersNoMatches | 2023/day4_rust/src/card.rs:64-70 | no winning draw gives no match |
| ScratchCards.MatchesAppend | 2023/day4_rust/src/card.rs:64-70 | matches of two draws joined are the two matches joined |
| ScratchCards.SampleFourMatches | 2023/day4_rust/src/card.rs:144 | card 1 matches 83, 86, 17 and 48, so it scores 8 |
| ScratchCards.SampleNoMatch | 2023/day4_rust/src/card.rs:148 | card 5 matches nothing and scores 0 |
| ScratchCards.DecimalWord | 2023/day4_rust/src/card.rs:29 | a number written in decimal is one token without ':' or the vertical bar, and reads back when it fits in u32 |
| ScratchCards.NamePart | 2023/day4_rust/src/card.rs:27 | "<word> <no>" splits into the word and the number |
| ScratchCards.SplitAtOnly | 2023/day4_rust/src/card.rs:20-34 | text with exactly one separator splits into the text before it and the text after it |
| ScratchCards.WordThenBlank | 2023/day4_rust/src/card.rs:38-50 | a token followed by nothing or by whitespace is the first token of the text |
| ScratchCards.FieldWords | 2023/day4_rust/src/card.rs:38-50 | a right-aligned number followed by nothing or whitespace is read as its decimal token |
| ScratchCards.WordsAfterBlanks | 2023/day4_rust/src/card.rs:38-50 | leading blanks are skipped by the whitespace split |
| ScratchCards.FieldsWords | 2023/day4_rust/src/card.rs:38-50 | numbers laid out in padded columns split into their decimal tokens, in order, whatever the padding |
| ScratchCards.FieldsNoSeparator | 2023/day4_rust/src/card.rs:20-34 | laid-out numbers contain neither ':' nor the vertical bar |
| ScratchCards.KeptDecimals | 2023/day4_rust/src/card.rs:38-50 | the decimal tokens of u32 values are all kept, in order |
| ScratchCards.FieldsAppend | 2023/day4_rust/src/card.rs:38-50 | laying out two lists one after the other is laying out their concatenation |
| ScratchCards.NewCardFromSplits | 2023/day4_rust/src/card.rs:19-62 | once the two splits are known, the card is the kept numbers of each side, or the error for the first empty list |
| ScratchCards.ParseCardText | 2023/day4_rust/src/card.rs:19-62 | round trip: a line "<word> <no>:<winning> (vertical bar) <drawn>" laid out as in the puzzle input parses to card no with exactly those lists in order, or to NoWinningNumbers / NoNumbers for the first empty list |
| ScratchCards.ParseCardWithoutBar | 2023/day4_rust/src/card.rs:34-37 | "<word> <no>:" followed by any laid-out numbers and no vertical bar is NoNumbersSeparator |
| ScratchCards.FieldSmall | 2023/day4_rust/src/card.rs:121-128 | a number below 100 is laid out as a blank, the tens digit or a blank, and the units digit |
| ScratchCards.CardOneName | 2023/day4_rust/src/card.rs:121-125 | the name of the examples reads "Card 1" |
| ScratchCards.CardOneWinning | 2023/day4_rust/src/card.rs:121-128 | card 1's winning numbers are laid out as " 41 48 83 86 17" |
| ScratchCards.CardOneDrawn | 2023/day4_rust/src/card.rs:121-128 | card 1's drawn numbers are laid out as " 83 86  6 31 17  9 48 53" |
| ScratchCards.CardOneDrawnHalves | 2023/day4_rust/src/card.rs:121-128 | the two halves of card 1's drawn numbers are laid out as in the example |
| ScratchCards.CardOneText | 2023/day4_rust/src/card.rs:121-122 | the pieces of card 1 put together give the example line |
| ScratchCards.ParsesCardOne | 2023/day4_rust/src/card.rs:120-128 | card 1 of the example parses to "Card 1", number 1, winning [41, 48, 83, 86, 17] and drawn [83, 86, 6, 31, 17, 9, 48, 53] |
| ScratchCards.ParsesCard22 | 2023/day4_rust/src/card.rs:130-132 | "Card 22: 17 (vertical bar) 83" is card 22 named "Card 22" with winning [17] and drawn [83] |
| ScratchCards.Card22Name | 2023/day4_rust/src/card.rs:130-132 | the name of the second example reads "Card 22" |
| ScratchCards.Card22Text | 2023/day4_rust/src/card.rs:130-132 | the pieces of card 22 put together give the example line |
| ScratchCards.CardTextOf | 2023/day4_rust/src/card.rs:93-116 | a card's text from the layouts of its two lists |
| ScratchCards.RejectsLineWithoutColon | 2023/day4_rust/src/card.rs:93-100 | "" and card 1 without its ':' are NoNameSeparator |
| ScratchCards.CardOneWithoutColon | 2023/day4_rust/src/card.rs:97-100 | card 1's line without ':' contains no ':' |
| ScratchCards.RejectsCardWithoutNumbers | 2023/day4_rust/src/card.rs:101-104 | "Card 1:" is NoNumbersSeparator |
| ScratchCards.RejectsCardWithoutBar | 2023/day4_rust/src/card.rs:105-108 | card 1 without its vertical bar is NoNumbersSeparator |
| ScratchCards.CardOneWithoutBar | 2023/day4_rust/src/card.rs:105-108 | the pieces of card 1 without its vertical bar put together give the example line |
| ScratchCards.RejectsEmptyWinning | 2023/day4_rust/src/card.rs:109-112 | "Card 1:" then a vertical bar (an empty winning list) is NoWinningNumbers |
| ScratchCards.RejectsEmptyDrawn | 2023/day4_rust/src/card.rs:113-116 | "Card 1: 23" then a vertical bar (an empty drawn list) is NoNumbers |
| ScratchCardGame.Kept | 2023/day4_rust/src/main.rs:17 | only the lines that parse as cards are played, at most one card per line |
| ScratchCardGame.KeptExact | 2023/day4_rust/src/main.rs:16-20 | a card is played exactly when some line parses to it; lines that fail to parse are skipped |
| ScratchCardGame.KeptPrefix | 2023/day4_rust/src/main.rs:16-20 | the cards of a prefix of the lines are a prefix of all the cards |
| ScratchCardGame.PointsOfNext | 2023/day4_rust/src/main.rs:16-20 | one more line adds its card's points when it parses and nothing otherwise |
| ScratchCardGame.TotalScore | 2023/day4_rust/src/main.rs:14-20 | the part-one loop returns the points of all parsed cards |
| ScratchCardGame.KeptLast | 2023/day4_rust/src/main.rs:16-20 | the card of the last parsed line is among the played cards |
| ScratchCardGame.AddCopies | 2023/day4_rust/src/main.rs:32-35 | the m cards after card no each gain k copies and every other count is unchanged |
| ScratchCardGame.AddCopiesSum | 2023/day4_rust/src/main.rs:32-35 | one card's win adds k copies to each of m cards, k * m in all |
| ScratchCardGame.Cascade | 2023/day4_rust/src/main.rs:28-38 | the count table keeps its 204 slots as cards are played |
| ScratchCardGame.CascadeKeepsEarlier | 2023/day4_rust/src/main.rs:33-34 | a card's wins never change the counts of itself or of earlier cards |
| ScratchCardGame.CascadeGrows | 2023/day4_rust/src/main.rs:32-35 | playing cards never lowers any count |
| ScratchCardGame.Ones | 2023/day4_rust/src/main.rs:26 | the table starts with one copy in each of 204 slots |
| ScratchCardGame.WinsOfSnoc | 2023/day4_rust/src/main.rs:28-38 | one more card adds its number and its number of matches to the list of wins |
| ScratchCardGame.WinsFitPrefix | 2023/day4_rust/src/main.rs:30-34 | if every card's won range fits the table, so does every prefix's |
| ScratchCardGame.WinsOfNext | 2023/day4_rust/src/main.rs:28-38 | one more line adds one win when it parses and none otherwise; the win's range fits the table |
| ScratchCardGame.TotalCards | 2023/day4_rust/src/main.rs:26-40 | part two returns the sum of the counts after playing every parsed card in order, starting from one of each |
| ScratchCardGame.PlayCards | 2023/day4_rust/src/main.rs:28-38 | the loop leaves the table as the cascade of all the parsed cards' wins over the initial counts |
| ScratchCardGame.PlayLine | 2023/day4_rust/src/main.rs:29-37 | one line keeps the table equal to the cascade over the lines read so far |
| ScratchCardGame.PlayWin | 2023/day4_rust/src/main.rs:30-36 | playing one win extends the cascade by that win |
| ScratchCardGame.AddCards | 2023/day4_rust/src/main.rs:30-36 | every copy of card no adds one to each of the next m counts: each gains the count of card no |
| ScratchCardGame.SumArray | 2023/day4_rust/src/main.rs:40 | the total is the sum of the table |
| ScratchCardGame.SampleCascade | 2023/day4_rust/src/main.rs:26-40 | for the six sample cards with 4, 2, 2, 1, 0, 0 matches the counts end as 1, 2, 4, 8, 14, 1 (30 cards) |
| ScratchCardGame.CascadeStep | 2023/day4_rust/src/main.rs:28-38 | the cascade over one more win is the previous cascade plus that win's copies |
| ScratchCardGame.CascadeFrom | 2023/day4_rust/src/main.rs:28-38 | the same, stated from known counts before and after the step |
| LocationLists.Distance | 2024/day_1_rust/src/main.rs:59-61 | the distance is how far apart the two numbers are, in whichever direction |
| LocationLists.DistanceSymmetric | 2024/day_1_rust/src/main.rs:59-61 | distance is symmetric and is 0 exactly for equal numbers |
| LocationLists.DistanceExamples | 2024/day_1_rust/src/main.rs:79-87 | the seven distances of the source's test: 2, 1, 0, 1, 2, 5, 2 |
| LocationLists.Field | 2024/day_1_rust/src/main.rs:67-68 | a field reads as its u32 value, or as 0 when it is not one |
| LocationLists.ParseLine | 2024/day_1_rust/src/main.rs:63-72 | a line yields a pair exactly when it has at least 8 characters: the first five characters and everything from the ninth on |
| LocationLists.FiveDigits | 2024/day_1_rust/src/main.rs:64 | a five-digit number fills the first field exactly |
| LocationLists.ParseRendered | 2024/day_1_rust/src/main.rs:63-72 | round trip: a five-digit number, three spaces and a u32 read back as that pair |
| LocationLists.ParseExample | 2024/day_1_rust/src/main.rs:90-95 | "66845   37619" reads as (66845, 37619) |
| LocationLists.ParseLetters | 2024/day_1_rust/src/main.rs:67 | an unreadable field reads as 0 rather than dropping the line |
| LocationLists.ReadLists | 2024/day_1_rust/src/main.rs:13-19 | the two lists hold the lines' left and right numbers, in input order, and have equal length |
| LocationLists.Insert | 2024/day_1_rust/src/main.rs:21-22 | insertion adds exactly one element |
| LocationLists.InsertSorted | 2024/day_1_rust/src/main.rs:21-22 | inserting into a sorted list keeps it sorted |
| LocationLists.Sort | 2024/day_1_rust/src/main.rs:21-22 | the sorted list is ascending and a permutation of the input |
| LocationLists.DistanceSumPrefix | 2024/day_1_rust/src/main.rs:26-31 | the running total never decreases along the loop |
| LocationLists.DistanceSumSwap | 2024/day_1_rust/src/main.rs:26-31 | swapping the two lists does not change the total distance |
| LocationLists.DistanceSumTail | 2024/day_1_rust/src/main.rs:26-31 | extra elements in the right list are never read |
| LocationLists.DistanceSumZero | 2024/day_1_rust/src/main.rs:26-31 | the total distance is 0 exactly when the lists are equal pairwise |
| LocationLists.TotalDistance | 2024/day_1_rust/src/main.rs:24-31 | the loop sums the pairwise distances of the i-th smallest numbers |
| LocationLists.OccurrencesMultiset | 2024/day_1_rust/src/main.rs:42-47 | the inner loop counts how often a number occurs in the right list |
| LocationLists.SimilarityAppend | 2024/day_1_rust/src/main.rs:40-49 | similarity is additive over the left list |
| LocationLists.SimilarityPrefix | 2024/day_1_rust/src/main.rs:40-49 | the running similarity never decreases along the loop |
| LocationLists.SimilarityRightOrder | 2024/day_1_rust/src/main.rs:40-49 | similarity depends only on the right list's elements, not their order |
| LocationLists.SimilarityLeftOrder | 2024/day_1_rust/src/main.rs:40-49 | similarity depends only on the left list's elements, not their order, so sorting first does not change it |
| LocationLists.Similarity | 2024/day_1_rust/src/main.rs:38-49 | the loop sums each left number times its number of occurrences in the right list |
| LocationLists.Solve | 2024/day_1_rust/src/main.rs:10-57 | the answers are the distance of the sorted lists and the similarity of the read lists, as long as both fit in u32 |
| Reports.ParseLevel | 2024/day_2_rust/src/report.rs:30 | a token is a level only when it is a non-empty u8 |
| Reports.ParseLevels | 2024/day_2_rust/src/report.rs:28-40 | success keeps one level per token; any failure is ParseError |
| Reports.ParseLevelsExact | 2024/day_2_rust/src/report.rs:28-40 | the tokens parse exactly when each is a u8, and then the levels are the tokens' values in order |
| Reports.Parse | 2024/day_2_rust/src/report.rs:27-47 | EmptyReport exactly when the line has no token; a parsed report has one level per token |
| Reports.ParseSucceeds | 2024/day_2_rust/src/report.rs:27-47 | a line parses exactly when it is not blank and all its whitespace-separated tokens are u8, keeping every value in order |
| Reports.ParseBlank | 2024/day_2_rust/src/report.rs:42-44 | a blank line is EmptyReport, not ParseError |
| Reports.ParseBadToken | 2024/day_2_rust/src/report.rs:35-39 | one bad token anywhere makes the line a ParseError |
| Reports.Safety | 2024/day_2_rust/src/report.rs:79-84 | a safe report never stays level between neighbours, and its first and last steps go the same way |
| Reports.RejectedTokens | 2024/day_2_rust/src/report.rs:111-139 | "a", "2b", "3.14", "3,14", "-14" and "256" are not levels |
| Reports.SafeIffGradual | 2024/day_2_rust/src/report.rs:79-84 | a report is safe exactly when it increases by 1 to 3 at every step or decreases by 1 to 3 at every step |
| Reports.LevelStartFixesAscending | 2024/day_2_rust/src/report.rs:51-58 | equal first levels fix the direction as ascending, so a later drop is unsafe |
| Reports.TestIncOrDec | 2024/day_2_rust/src/report.rs:49-62 | true exactly when no adjacent pair goes against the direction fixed by the first two levels |
| Reports.TestDiff | 2024/day_2_rust/src/report.rs:64-77 | true exactly when every adjacent pair differs by 1 to 3 |
| Reports.TestSafety | 2024/day_2_rust/src/report.rs:79-84 | Safe exactly when the levels change gradually in one direction |
| Reports.Remove | 2024/day_2_rust/src/report.rs:92-93 | removing level i keeps the levels before it and shifts the rest down by one |
| Reports.TestSafetyWithProblemDampener | 2024/day_2_rust/src/report.rs:86-103 | Safe exactly when the report is safe or becomes safe after removing one level |
| Reports.SafeWithoutEnds | 2024/day_2_rust/src/report.rs:86-103 | removing the first or the last level of a safe report keeps it safe |
| Reports.SafetyExamples | 2024/day_2_rust/src/report.rs:154-189 | 7 6 4 2 1 and 1 3 6 7 9 are safe |
| Reports.UnsafeJumpExamples | 2024/day_2_rust/src/report.rs:160-171 | 1 2 7 8 9 and 9 7 6 2 1 are unsafe: a step of 5 or 4 |
| Reports.UnsafeTurnExamples | 2024/day_2_rust/src/report.rs:172-183 | 1 3 2 4 5 changes direction and 8 6 4 4 1 stalls: both unsafe |
| Reports.DampenerRescues | 2024/day_2_rust/src/report.rs:212-223 | with the dampener 1 3 2 4 5 and 8 6 4 4 1 become safe |
| Reports.DampenerKeepsJump | 2024/day_2_rust/src/report.rs:200-205 | 1 2 7 8 9 stays unsafe whichever level is removed |
| Reports.DampenerKeepsDrop | 2024/day_2_rust/src/report.rs:206-211 | 9 7 6 2 1 stays unsafe whichever level is removed |
| MulInstructions.DigitRun | 2024/day_3_rust/src/main.rs:38 | the greedy \d+ takes every leading digit and stops at the first non-digit |
| MulInstructions.MulPrefixSound | 2024/day_3_rust/src/main.rs:38 | a match of mul(\d+,\d+) found at the start of the text has digit-only groups and is exactly the text it consumed |
| MulInstructions.MulPrefixOfRender | 2024/day_3_rust/src/main.rs:38 | conversely, text beginning with mul(<digits>,<digits>) matches there whatever follows |
| MulInstructions.BadOpenSkipped | 2024/day_3_rust/src/main.rs:38 | mul not followed by '(' starts no match |
| MulInstructions.BadCloseSkipped | 2024/day_3_rust/src/main.rs:38 | mul(<digits>,<digits> closed by anything but ')' starts no match |
| MulInstructions.ScanMuls | 2024/day_3_rust/src/main.rs:38-39 | every match captures_iter yields has digit-only groups |
| MulInstructions.ScanSkipNoM | 2024/day_3_rust/src/main.rs:39 | text without an 'm' contributes no match |
| MulInstructions.ScanAfterMul | 2024/day_3_rust/src/main.rs:39 | a match at the front is yielded first and the search resumes right after it |
| MulInstructions.ScanRenderAll | 2024/day_3_rust/src/main.rs:38-39 | scanning matches written back to back yields exactly those matches in order |
| MulInstructions.NewFromCapFits | 2024/day_3_rust/src/main.rs:20-28 | a match converts exactly when both numbers fit in u32, to their decimal values; otherwise NumericConverion |
| MulInstructions.NewFromCap | 2024/day_3_rust/src/main.rs:20-28 | a failed conversion is always NumericConverion (the Captures error never arises); a converted pair holds two u32 values |
| MulInstructions.ConvertedAllFit | 2024/day_3_rust/src/main.rs:39-43 | when every number fits, every match is kept, each as its own pair of values |
| MulInstructions.ParseLineToMulList | 2024/day_3_rust/src/main.rs:35-46 | the result is every match of the text, converted, with those that fail to convert dropped, in order |
| MulInstructions.SumProductsConcat | 2024/day_3_rust/src/main.rs:69-75 | the sum of products over two lists is the sum of their sums |
| MulInstructions.Calculate | 2024/day_3_rust/src/main.rs:30-32 | the product is zero exactly when a factor is, and otherwise at least each factor |
| MulInstructions.SumMulListResults | 2024/day_3_rust/src/main.rs:69-75 | the loop adds up a*b over the list, under the u32 bound on the total |
| MulInstructions.KeptWithoutDont | 2024/day_3_rust/src/main.rs:52-64 | without don't() every mul is kept |
| MulInstructions.KeptAfterDont | 2024/day_3_rust/src/main.rs:52-64 | after don't() with no later do() nothing is kept |
| MulInstructions.KeptIsSubsequence | 2024/day_3_rust/src/main.rs:52-64 | the kept muls are a subsequence of the muls of the text: some of them left out, the rest in their order (hence also a sub-multiset) |
| MulInstructions.SubsequenceSkip | 2024/day_3_rust/src/main.rs:52-64 | leaving one more element out keeps a subsequence |
| MulInstructions.ScanInstructionsWellFormed | 2024/day_3_rust/src/main.rs:49-53 | every mul the second pattern yields has digit-only groups |
| MulInstructions.SameMuls | 2024/day_3_rust/src/main.rs:38-53 | the muls found by the second pattern are exactly those found by the first |
| MulInstructions.ParseLineToMulListV2 | 2024/day_3_rust/src/main.rs:48-67 | the result is the muls met while enabled (do() enables, don't() disables, start enabled), converted |
| MulInstructions.SampleOneScan | 2024/day_3_rust/src/main.rs:101-109 | the sample line yields mul(2,4), mul(5,5), mul(11,8), mul(8,5) |
| MulInstructions.SampleOne | 2024/day_3_rust/src/main.rs:101-136 | the sample line gives four muls summing to 161 |
| MulInstructions.SampleTwoScan | 2024/day_3_rust/src/main.rs:111-119 | the second sample yields mul(2,4), don't(), mul(5,5), mul(11,8), do(), mul(8,5) |
| MulInstructions.SampleTwoKept | 2024/day_3_rust/src/main.rs:111-119 | only mul(2,4) and mul(8,5) are enabled there |
| MulInstructions.SampleTwo | 2024/day_3_rust/src/main.rs:111-142 | the second sample gives two muls summing to 48 |
| MulInstructions.Converted | 2024/day_3_rust/src/main.rs:39-43 | no more products than matches, and every kept factor is a u32 |
| MulInstructions.SumProducts | 2024/day_3_rust/src/main.rs:69-75 | no single product exceeds the sum |
| MulInstructions.ScanInstructions | 2024/day_3_rust/src/main.rs:49-53 | every instruction found takes at least four characters of the text (do() is the shortest) |
| MulInstructions.Kept | 2024/day_3_rust/src/main.rs:52-64 | the enabled muls are never more than all the muls |
| WordSearching.CountBound | 2024/day_4_rust/src/word_search.rs:18-20 | str::matches finds non-overlapping matches, so their total length fits in the line |
| WordSearching.CountInLine | 2024/day_4_rust/src/word_search.rs:18-20 | the count is zero exactly when the word occurs nowhere in the line |
| WordSearching.CountAfterMatch | 2024/day_4_rust/src/word_search.rs:18-20 | a match at the front is counted and the search resumes after it |
| WordSearching.CountSkipChar | 2024/day_4_rust/src/word_search.rs:18-20 | a character that cannot start the word is passed over |
| WordSearching.NonOverlapping | 2024/day_4_rust/src/word_search.rs:18-20 | overlapping occurrences count once: "aa" is found once in "aaa" |
| WordSearching.ThreeInLine | 2024/day_4_rust/src/word_search.rs:94-99 | "testxtestxtestx" holds "test" three times |
| WordSearching.CountInLinesConcat | 2024/day_4_rust/src/word_search.rs:22-28 | counting over two blocks of lines is the sum of the two counts |
| WordSearching.CountInThreeLines | 2024/day_4_rust/src/word_search.rs:22-28 | the count over three lines is the sum of their counts |
| WordSearching.FirstTestLine | 2024/day_4_rust/src/word_search.rs:104 | "xtestxtest" holds "test" twice |
| WordSearching.SecondTestLine | 2024/day_4_rust/src/word_search.rs:105 | "testtesttest" holds "test" three times |
| WordSearching.ThirdTestLine | 2024/day_4_rust/src/word_search.rs:106 | "xtetest" holds "test" once, after a false start |
| WordSearching.SixInLines | 2024/day_4_rust/src/word_search.rs:101-112 | the three test lines hold "test" six times in all |
| WordSearching.Column | 2024/day_4_rust/src/word_search.rs:40-44 | a column has one character per line: the line's character there, or a space past its end |
| WordSearching.VerticalLines | 2024/day_4_rust/src/word_search.rs:30-49 | no lines gives None; otherwise one column per character of the first line |
| WordSearching.TransposeTwice | 2024/day_4_rust/src/word_search.rs:30-49 | the columns of a rectangular grid are rectangular, and taking columns again gives back the rows |
| WordSearching.FirstColumn | 2024/day_4_rust/src/word_search.rs:114-132 | for 123/456/789 the first column is "147", so it is not the diagonal "159" |
| WordSearching.Reverse | 2024/day_4_rust/src/word_search.rs:60 | the reversed word has the same length and reads back to front |
| WordSearching.ReverseReverse | 2024/day_4_rust/src/word_search.rs:60 | reversing twice gives the word back |
| WordSearching.Occurrences | 2024/day_4_rust/src/word_search.rs:81-86 | a word that reads the same backwards is counted twice along each row and each column |
| WordSearching.ReversedWordSameTotal | 2024/day_4_rust/src/word_search.rs:55-86 | searching for the reversed word gives the same total |
| WordSearching.TransposedSameTotal | 2024/day_4_rust/src/word_search.rs:55-86 | a rectangular grid and its transpose give the same total |
| WordSearching.SymmetricTranspose | 2024/day_4_rust/src/word_search.rs:30-49 | a square grid that reads the same down as across is its own transpose |
| WordSearching.DiagonalNotFound | 2024/day_4_rust/src/word_search.rs:51-53 | a word written only on a diagonal is not found, since get_diagonal_lines always returns None |
| WordSearching.WordSearch.constructor | 2024/day_4_rust/src/word_search.rs:7-12 | a new search has no text and the given word |
| WordSearching.WordSearch.TextAddLine | 2024/day_4_rust/src/word_search.rs:14-16 | the line is appended to the text and nothing else changes |
| WordSearching.WordSearch.CountWordOccurencesInLines | 2024/day_4_rust/src/word_search.rs:22-28 | the loop adds up the per-line counts, which must fit in u32 |
| WordSearching.WordSearch.GetVerticalLines | 2024/day_4_rust/src/word_search.rs:30-49 | the nested loops build exactly the columns, or None when there is no line |
| WordSearching.WordSearch.CountLeftToRight | 2024/day_4_rust/src/word_search.rs:55-57 | the word counted along the rows |
| WordSearching.WordSearch.CountRightToLeft | 2024/day_4_rust/src/word_search.rs:59-62 | the reversed word counted along the rows |
| WordSearching.WordSearch.CountTopToBottom | 2024/day_4_rust/src/word_search.rs:64-70 | the word counted down the columns, zero without text |
| WordSearching.WordSearch.CountBottomToTop | 2024/day_4_rust/src/word_search.rs:72-79 | the reversed word counted down the columns, zero without text |
| WordSearching.WordSearch.CountOccurences | 2024/day_4_rust/src/word_search.rs:81-86 | rows and columns each way, added up |
| WordSearching.CountInLines | 2024/day_4_rust/src/word_search.rs:22-28 | no line counts more than the total, and the total is zero exactly when every line counts zero |
| WordSearching.ColumnCount | 2024/day_4_rust/src/word_search.rs:64-79 | no lines give zero; otherwise the count is zero exactly when every column counts zero |
| ProductIds.ParseRange | 2025/day_2_ts/solution.ts:9 | one value per '-'-separated part, each read by parseInt (None for NaN) |
| ProductIds.ParseProductIdList | 2025/day_2_ts/solution.ts:7-11 | one range per ','-separated part |
| ProductIds.ParseRangeText | 2025/day_2_ts/solution.ts:9 | round trip: "start-end" reads back as the two bounds |
| ProductIds.Bounds | 2025/day_2_ts/solution.ts:7-11 | the parsed form of a list of well-written ranges holds exactly their two bounds each |
| ProductIds.ParseRangesText | 2025/day_2_ts/solution.ts:7-11 | round trip: ranges written as "a-b,c-d,..." parse back to their bounds, in order |
| ProductIds.CreateRangeTuple | 2025/day_2_ts/solution.ts:34-47 | a tuple is made exactly when the range has two values, and holds those two values |
| ProductIds.IdRange | 2025/day_2_ts/solution.ts:13-21 | the ids from start to end inclusive in increasing order, none when start exceeds end |
| ProductIds.CreateIdArrayByRange | 2025/day_2_ts/solution.ts:13-21 | the loop builds exactly that range |
| ProductIds.IsValidId | 2025/day_2_ts/solution.ts:23-32 | an odd-length id is valid, and an invalid id is its first half written twice |
| ProductIds.InvalidIffDoubled | 2025/day_2_ts/solution.ts:23-32 | an id is invalid exactly when its digits are some half written twice; an odd-length id is always valid |
| ProductIds.InvalidIdsMembers | 2025/day_2_ts/solution.ts:71 | the kept ids are exactly the ids of the input whose decimal text is invalid |
| ProductIds.InvalidIdsAppend | 2025/day_2_ts/solution.ts:71 | filtering distributes over concatenation, so the order of ranges only orders the result |
| ProductIds.SumAppend | 2025/day_2_ts/solution.ts:72-74 | the sum of two lists joined is the sum of their sums |
| ProductIds.AllIdsSum | 2025/day_2_ts/solution.ts:57-74 | the total over parsed ranges is the sum, range by range, of the invalid ids in each |
| ProductIds.InvalidIdsSumBelow | 2025/day_2_ts/solution.ts:71-74 | leaving the valid ids out can only lower the sum |
| ProductIds.InvalidIdsSum | 2025/day_2_ts/solution.ts:51-74 | the answer is at most the sum of all the ids of the parsed ranges |
| ProductIds.InvalidIdsSumOfRanges | 2025/day_2_ts/solution.ts:51-74 | for input written as well-formed ranges, the answer is the per-range sum of invalid ids |
| ProductIds.TwoDigitId | 2025/day_2_ts/solution.ts:23-32 | a two-digit id is invalid exactly when both digits are equal |
| ProductIds.InvalidIdsExtend | 2025/day_2_ts/solution.ts:13-21 | extending a range by one id appends that id to the invalid list exactly when it is invalid |
| ProductIds.InvalidUpTo | 2025/day_2_ts/solution.ts:13-32 | between 11 and 22 the invalid ids are 11 and 22 |
| ProductIds.SampleSum | 2025/day_2_ts/solution.ts:51-74 | the input "11-22" answers 33 |
| ProductIds.AllIds | 2025/day_2_ts/solution.ts:57-69 | every ID of the flattened list belongs to one of the parsed ranges |
| ProductIds.InvalidIds | 2025/day_2_ts/solution.ts:71 | the filter keeps no more IDs than it is given, and every kept ID is invalid |
| ProductIds.Sum | 2025/day_2_ts/solution.ts:72-74 | no single ID exceeds the sum |
| Text.ParseUnsigned | 2023/day4_rust/src/card.rs:29 | str::parse for an unsigned type accepts only digits with an optional leading '+', and only values in range |
| Text.UnsignedStringParses | 2023/day4_rust/src/card.rs:40 | every in-range value written in decimal parses back to itself |
| Text.ParseSigned | 2015/day_6_rust/src/vector2_ext.rs:15-27 | str::parse for i32 yields only values between i32::MIN and i32::MAX |
| Text.SignedStringParses | 2015/day_6_rust/src/vector2_ext.rs:15-27 | every i32 written in decimal, with '-' when negative, parses back to itself |
| Text.Split | 2023/day4_rust/src/card.rs:20 | str::split gives at least one part and no part holds the separator |
| Text.JoinSplit | 2023/day4_rust/src/card.rs:20 | joining the parts with the separator gives back the text |
| Text.SplitJoin | 2023/day4_rust/src/card.rs:34 | splitting parts joined by a separator that none of them holds gives back the parts |
| Text.Words | 2023/day4_rust/src/card.rs:27 | split_whitespace gives non-empty words without whitespace |
| Text.WordsOfBlank | 2023/day4_rust/src/card.rs:27 | split_whitespace gives nothing exactly when the text is all whitespace |

## Left out

- File reading, console output and every `main` wrapper are left out; the drivers' loops over lines are modelled where they compute something (2015 days 1, 3, 7 and 8, 2022 day 1, 2023 day 4, 2024 day 1, 2025 day 2).
- 2015 day 4 is not part of this model: it searches MD5 digests computed by an external crate.
- 2015 day 6's `main.rs` is not part of this model: it writes a PNG through an image crate, and its lit count and brightness sum are one-line folds over the grid.
- 2015 day 6's `command.rs` is not part of this model: its parser is a stub that always returns the same command. `Command` is a plain datatype passed to `Exec` and `ExecPt2`, with corners as pairs rather than `Vector2` objects, and the lights test that depends on real parsing is not stated.
- The thin line-counting drivers of 2015 days 2 and 5, 2023 day 1 and 2024 days 2 and 4 are left out.
- The regular expressions of 2015 days 7 and 8 and 2024 day 3 are modelled as explicit left-to-right scanners over ASCII text.
- Characters are ASCII throughout: Rust's Unicode-aware `\d`, `is_numeric` and byte slicing are read as their ASCII meaning. The one place where byte length matters, 2015 day 8's `\xHH` decoding, counts UTF-8 bytes explicitly.
- Overflow is not modelled. Where the source's `u8`, `u16`, `u32` or `i32` arithmetic or a cast could overflow or panic, the model computes on unbounded integers and requires that the values fit. This covers:
  - the nice-string counters;
  - the present-box areas;
  - the `mul` products and sums;
  - the location-list sums;
  - the word counts;
  - the light brightness;
  - the i32 positions of the walks;
  - the engine schematic's `u32` digit fold, which the model requires to fit (`Scannable`).
- ScratchCardGame.TotalScore: the part-one and part-two sums and the copy counts are unbounded naturals, not `u32`. A card with more than 32 matches, whose points would overflow `u32`, is excluded by precondition.
- ScratchCardGame.PlayCards: card numbers must lie in 1..204 and every cascade must stay inside the array; the source would panic on an out-of-bounds index.
- ScratchCards.NewCardContract: a name with fewer than two whitespace tokens panics at `name_number[1]` in the source; the model requires at least two (`NameIndexable`).
- Lights.Lights.Exec and Lights.Lights.ExecPt2: the corners must be non-negative and at most `i32::MAX`. The source casts each corner coordinate `as usize`, and a negative coordinate would wrap to a huge column or row; that wrap-around is not modelled.
- Reports.TestSafety: the source indexes `levels[1]`, so a report needs at least two levels, and an unsafe report given to the dampener needs at least three; both are preconditions.
- WireKit.WiresKit.EvaluateCircuit: the source loops forever when the circuit never settles. The method takes a ghost sweep count and requires that evaluation returns within it.
- WireKit.WiresKit.EvaluateCircuit: an `unwrap` on a missing wire is the outcome `Panic`, and so is a shift by 16 or more; the source panics there.
- WireKit: the `ShiftDirectionError` tag is declared but cannot be produced, because the parser only builds shifts with a direction. No stuck or cycle check is modelled, since the source has none.
- EscapeText.Total: lines shorter than two characters would panic at the slice that drops the quotes; they are excluded by precondition.
- EscapeText.HexBeforeEscape: the hex pass runs before the backslash pass, so `\\x41` decodes to `A`; this is the source's behaviour and is modelled as written.
- Floors.Walk: the source reads `lines[0]`, so the input must have a line, and the floor is an `i32`, so the line's length is bounded by `i32::MAX`.
- NiceStrings.GetDoublets: `get_doublets` indexes the first character, so it requires a non-empty string. `CheckString` calls it only after finding three vowels, so it never reaches it with an empty string.
- LocationLists.Sort and Calories.SortByCalories: the library sorts are modelled as insertion sorts. The first is on a `seq`, the second in place on an `array`. The order of elves with equal calories is unspecified in the source; `RankedCaloriesDetermined` shows the answers do not depend on it.
- Calories: an `Elf` object, whose calories the source updates in place, is modelled as an immutable value replaced on each update.
- Calories.Rank: lines that `parseInt` reads as `NaN` are excluded by precondition (`NumericLines`).
- JsNumbers.ParseInt: TypeScript numbers are modelled as mathematical integers, and `parseInt` only as "the leading decimal digits, or nothing". Leading whitespace, a `+` or `-` sign and the `0x` hex prefix are not modelled: the model gives `None` for " 12", "+12" and "-12" and reads "0x1A" and "0x" as 0, where JavaScript gives 12, 12, -12, 26 and `NaN` (`NarrowerThanJavaScript`). The puzzle inputs hold none of these forms. A range bound that reads as `NaN` gives no IDs.
- EngineSchematic.GetValidParts: a row next to a number that is shorter than the number's first searched column makes the source panic at `&curr_line[slice_start..slice_end]` (`main.rs:19`), since the slice start then exceeds its end; the model excludes such ragged grids by precondition (`SliceFits`, part of `Scannable`).
- EngineSchematic.GetValidParts: the per-row scan of the source's single loop is stated by a helper method `RowParts`, one row at a time.
- SantaRoutes: `santa_route.rs` imports `crate::Vector2`, which in the crate as declared (`main.rs:1-4`: `mod santa_route;` and `use utils::vector2::*;`, with no `mod vector2;`) is the shared `utils` type. That type has only `new`, `add`, `up`, `down`, `left` and `right`, and no `get_coords_str`, so the day-3 crate as written does not compile. The day's own `vector2.rs`, which is not declared as a module of the crate, does define `get_coords_str`; the model takes `Vectors.Vector2.CoordsStr` and `CoordsKey` from that file.
- WordSearching: `get_diagonal_lines` always returns `None` and `count_occurences` never uses it, so no diagonal search is modelled (`DiagonalNotFound`). The tests at `word_search.rs:125-132` (expecting "159") and `word_search.rs:135-155` (expecting 18, which needs diagonals) contradict the code and are not stated; `FirstColumn` states what the code gives instead.
- MulInstructions: the long second test string of `parse_line_to_mul_list_v2` (ten `mul`s) is not stated; both short samples are.
