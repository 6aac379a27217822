# Advent of Code puzzle logic, modelled in Dafny

This project models the puzzle-solving core of a collection of Advent of Code
solutions (years 2022 to 2024), mostly written in Rust, with one TypeScript day and
one C day. Each solution reads a puzzle input file, parses it into the day's data
structures, and computes one answer for each of the two parts. The model covers the
parsing and the computation. Reading files, printing and the command line are not
part of it.

The modules follow the source files: a shared module for each part of a library the
solutions rely on, and one module, sometimes with a module of its examples beside it,
for each day:

- `Common` holds shared pieces: `Option`, sums and products, and the fixed-width
  integer bounds.
- `Text` models the parts of the Rust standard library the solutions use: `lines`,
  `split`, `split_whitespace`, `trim`, integer parsing with a width bound, and the
  `filter_map` that keeps the pieces parsing as `u32` (`ParsedU32s`).
- `Grid` holds rectangular grids stored as sequences of rows, with position
  `(row, column)`.
- `CompressedMatrix` models the `Compressed` matrices of the `matrix` crate that
  2022 days 8 and 12 fill cell by cell from the lines of their input.
- Each day's module sits in a file named after the puzzle.

A panic in the source is an error result (`None`, or `ok == false`) in the model. A
number parsed in the source as `u32` or `usize` carries that bound explicitly, and
parsing a number beyond it is an error. A method that stands for a loop in the
source is proved against a specification function, and the properties the source
relies on are proved as lemmas about that function.

- `PipeMaze` models 2023 day 10, a field of pipes. It covers parsing the sketch, a
  breadth-first search for the distance to the farthest tile, extracting the main
  loop, and counting enclosed tiles by the parity of the inversions to their left.
  A walk starts at the start, takes its first step to a neighbour that connects back
  to it, and then steps through the sides each pipe opens to. A tile is reached when
  some walk of at least one step ends there. A sketch is sound when every reached tile
  other than the start is a pipe whose sides stay inside the grid; on a sound sketch
  neither the search nor the main-loop copy panics.
- `GearRatios` models 2023 day 3, an engine schematic. A parser class turns each line
  into tokens, with number ids counted across lines. A sparse matrix class holds the
  tokens cell by cell, and a scan collects the numbers around each symbol.
- `CubeConundrum` models 2023 day 2, games of coloured cubes. It covers parsing a game
  line, checking a game against a bag, the fewest cubes that make a game possible, and
  the power of a set.
- `CamelCards` models 2023 day 7, Camel Cards with jokers. It covers parsing a hand,
  counting its kinds, moving the jokers onto the most frequent other kind,
  classifying the counts, ordering hands by type and then card by card, and the total
  winnings of a sorted list. `CamelCardsExamples` and `CamelCardsOrderExamples` state
  the unit tests of that day as lemmas.
- `Scratchcards` models 2023 day 4, scratchcards. It covers parsing a card, the
  winning numbers a card holds, the points of a list of cards, and the in-place pass
  that adds won copies to the following cards. `ScratchcardsExamples` states the unit
  tests of that day as lemmas.
- `Position`, `Observatory` and `CosmicExpansion` model 2023 day 11, an image of
  galaxies. `Position` covers coordinates, their Manhattan distance and unordered
  pairs. `Observatory` covers parsing the image and writing it back, expanding every
  empty row and column into `to` of them, and listing the galaxies.
  `CosmicExpansion` covers the sum of the distances over every pair of galaxies.
  `PositionExamples` states the unit tests of `position.rs` as lemmas.
- `HauntedWasteland` models 2023 day 8, a network of nodes walked by left/right
  instructions. It covers parsing the instructions and the network, one walk step,
  the recorded walk from `AAA` to `ZZZ`, and the step counts from every node ending
  in `A` to one ending in `Z`, combined by their least common multiple.
  `NumberTheory` supplies that gcd and lcm, each with the property that
  characterises it. `HauntedWastelandExamples` states the unit tests of that day as
  lemmas.
- `SeedAlmanac` models 2023 day 5, an almanac of seed-to-location maps. It covers
  parsing the almanac, converting numbers through one map, the locations of the
  seeds, and the lowest location over the seed intervals of part two.
  `SeedAlmanacExamples` states the unit tests of that day as lemmas.
- `BoatRace` models 2023 day 6, toy boat races. It covers the distance for a holding
  time, the distances and winning times of a race, the product of the numbers of
  winning times, and the two readings of the input: as columns of races, and as one
  race whose digits are run together. `BoatRaceExamples` states the unit tests of
  that day as lemmas.
- `RockPaperScissors` models 2022 day 2, a rock-paper-scissors strategy guide. It
  covers the hands each hand beats and is beaten by, the outcome of a game, parsing a
  line as a game of part one and as a round of part two, the hand part two chooses,
  and the two totals.
- `Trebuchet` models 2023 day 1, calibration values. It covers the value made of a
  line's first and last digit, and part two, where the spelled-out digits are first
  replaced by words that keep their outer letters and carry the digit in the middle.
  That replacement runs over the entries of a `HashMap` in an order the source does
  not fix; the model takes the order as a parameter and proves the result the same for
  every order. `TrebuchetExamples` states the unit tests of that day as lemmas.
- `RopeBridge` models 2022 day 9, a rope of ten knots. It covers the tests of whether
  two knots coincide, touch or must move, the move of one knot towards the one before
  it, the in-place simulation of `main` over an array of knots with the set of cells
  the last knot visits, and the parsing of the motions. The simulation is proved
  against a step function on sequences, which keeps the rope taut and adds at most
  one visited cell per unit step.
- `RegolithReservoir` models 2022 day 14, sand falling into a cave of rock. It covers
  parsing the rock paths, building the matrix and placing the rock, the choice of move
  for a grain, and the game loop that counts the grains at rest. The loop is proved
  against a recursive function, which leaves each grain at rest on a free cell turned
  to sand, and which is shown to be a sequence of single falls.
- `SupplyStacks` models 2022 day 5, a crane rearranging stacks of crates. It covers
  finding the numbering line under the drawing, reading each numbered column of the
  drawing as a stack, parsing the procedures, the crane that moves one crate at a
  time, and the top crate of every stack. The crane is a class whose table the moves
  update, proved against functions that move a block of crates in reversed order and
  keep the number of crates. A drawing written from stacks of letters, with procedures
  under it, is shown to read back as those stacks and procedures.
- `MirageMaintenance` models 2023 day 9, histories of readings. It covers the rows
  of differences down to a row of zeros, the next value as the sum of the last
  readings, the loop of `find_next` proved against it, parsing the report, and the
  sum over all histories.
- `DistressSignal` models 2022 day 13, pairs of packets. It covers the packets as
  values of integers and lists, the walk of `process_packets` that decides whether a
  pair is out of order, with integers wrapped as lists, and grouping the input's lines
  into pairs.
- `RedNosedReports` models 2024 day 2, written in C. It covers the `Row` struct with
  its fixed buffer of levels, the loop that checks a report is safe, proved against a
  predicate of levels that only increase or only decrease by one to three, and the
  count of safe reports.
- `RucksackReorganization` models 2022 day 3, rucksacks of items. It covers the
  priority table filled in place, the item shared by the two compartments, the item
  shared by each group of three rucksacks, and the sums of their priorities.
- `TreetopTreeHouse` models 2022 day 8, a grid of tree heights. It covers filling the
  matrix from the digits of the input, the test of whether a tree is taller than all
  trees towards one edge, and the loops that count the visible trees.
- `HillClimbing` models the library part of 2022 day 12: reading the heightmap into a
  matrix of bytes and finding a character in it.
- `CampCleanup` models 2022 day 4, pairs of section ranges. It covers parsing a range
  and a pair of them, the test of whether one range contains the other, and the count
  of such pairs. Ranges and pairs written as text are shown to read back.
- `TuningTrouble` models 2022 day 6, a datastream. It covers the circular queue of the
  last four characters, the set of distinct characters in it, and the loop that stops
  at the first start-of-packet marker, proved against a scan for the first marker.
- `CalorieCounting` models 2022 day 1, elves carrying food. It covers the total each
  elf carries, the sort of the totals, proved in place as an insertion sort, and the
  sum of the three largest.
- `NoSpaceLeft` models 2022 day 7, written in TypeScript: a terminal session rebuilt
  into a directory tree. The `Cursor` class keeps the directories in an arena, with
  each directory's size the total of the files in its subtree, and its `cd`,
  `insert_file` and `insert_folder` are proved against functions on that state. The
  traversal from the root is proved to visit each directory once and to add up the
  sizes of at most 100000.
- `Orders` holds facts about strict orders on sequences that the ordering proofs
  share: a sequence whose neighbours are in order is increasing, and two increasing
  sequences with the same elements are equal.

## Model

| member | source | states |
|---|---|---|
| PipeMaze.GetPos | 2023/day-10/src/main.rs:35-42 | there is no neighbour above row 0 or left of column 0, and Right and Down always give a different tile |
| PipeMaze.GetPosOpposite | 2023/day-10/src/main.rs:35-42 | stepping to a side and then to the opposite side comes back to the same tile |
| PipeMaze.GetPosInjective | 2023/day-10/src/main.rs:35-42 | two different sides never lead to the same tile |
| PipeMaze.ParsePipe | 2023/day-10/src/main.rs:45-63 | a character names a pipe exactly when it is one of `.S|-LJ7F` or a box-drawing character, and only `S` is the start |
| PipeMaze.ParsePipeRoundTrip | 2023/day-10/src/main.rs:45-63 | both the sketch character and the displayed character of every pipe parse back to that pipe |
| PipeMaze.GetSides | 2023/day-10/src/main.rs:66-77 | Ground has no sides, and every other pipe except Start has exactly two different sides |
| PipeMaze.ConnectsFromOpening | 2023/day-10/src/main.rs:66-89 | a pipe can be entered moving towards a side exactly when it opens to the opposite side, so never for Ground or Start |
| PipeMaze.InversionOpensUp | 2023/day-10/src/main.rs:91-93 | the inversions are exactly the pipes that open upwards |
| PipeMaze.GetStartPipe | 2023/day-10/src/main.rs:199-219 | two different sides give a pipe whose sides are those two, and equal sides are a panic |
| PipeMaze.GetStartPipeSymmetric | 2023/day-10/src/main.rs:199-219 | the start pipe does not depend on the order of the two sides |
| PipeMaze.StartPipeRecoversPipe | 2023/day-10/src/main.rs:199-219 | the start pipe chosen from a pipe's own two sides is that pipe |
| PipeMaze.ByteOffsetAscii | 2023/day-10/src/main.rs:117 | on an ASCII line the column a character is written to is its index |
| PipeMaze.ParseRow | 2023/day-10/src/main.rs:117-123 | one line is stored character by character at its byte offsets, its last `S` is reported, and a character that is not a pipe or lies beyond the width is a panic |
| PipeMaze.ParsedGridCells | 2023/day-10/src/main.rs:109-124 | the parsed grid has one row per line and the first line's width, holds each character's pipe at its offset, and is Ground elsewhere |
| PipeMaze.StartOfMeans | 2023/day-10/src/main.rs:115-121 | there is a start exactly when some line has an `S`, and it is the last `S` of the last such line |
| PipeMaze.FromLines | 2023/day-10/src/main.rs:109-127 | `Sketch::from` succeeds exactly on a nonempty file of pipe characters within the first line's width, and gives the grid and start described above |
| PipeMaze.ParseRows | 2023/day-10/src/main.rs:109-124 | the row loop of `Sketch::from` succeeds exactly when every line parses, and then gives the parsed grid and the last start |
| PipeMaze.SeedsAreFirstSteps | 2023/day-10/src/main.rs:160-169 | the tiles the seeding loops queue are exactly the tiles one step from the start that connect back to it |
| PipeMaze.SeedNeighbour | 2023/day-10/src/main.rs:160-169 | one side of the start: a neighbour that connects back gets distance 1 and is queued, and the round fails exactly when that side leads out of the grid |
| PipeMaze.SeedSearch | 2023/day-10/src/main.rs:151-169 | the start gets distance 0, the neighbours that connect back get 1 and are queued in side order, every other tile has none, and it fails exactly when a neighbour of the start lies outside the grid |
| PipeMaze.VisitSide | 2023/day-10/src/main.rs:180-192 | one side of the dequeued tile: a neighbour with no distance or a larger one gets the current distance and is queued, only such cells change, and the side then leads to a tile at most the current distance away; it fails exactly when the side leads out of the grid |
| PipeMaze.VisitNeighbours | 2023/day-10/src/main.rs:176-192 | after the inner loop every side of the tile leads to a tile at most the current distance away, only cells that had no distance or a larger one changed, they were queued, `longest_distance` became the current distance exactly when something was queued, and it fails exactly when a side leads out of the grid |
| PipeMaze.BfsStep | 2023/day-10/src/main.rs:171-193 | one round keeps the breadth-first invariant: distances are walk lengths, the queue is sorted and spans one step, `longest_distance` is the largest distance, and every dequeued tile's neighbours are at most one step further |
| PipeMaze.BfsRound | 2023/day-10/src/main.rs:171-193 | one round of the loop keeps that invariant and lowers the termination measure, and on a sound sketch dequeuing a Ground or Start tile or leaving the grid does not happen |
| PipeMaze.WalkWithin | 2023/day-10/src/main.rs:171-193 | once the queue is empty, the tile at the end of every walk from the start has a distance of at most the walk's length |
| PipeMaze.BfsShortest | 2023/day-10/src/main.rs:129-197 | once the queue is empty, a tile has a distance exactly when it is the start or reached along the pipes, and that distance is the fewest steps of a walk to it |
| PipeMaze.BfsResult | 2023/day-10/src/main.rs:171-196 | once the queue is empty, every distance is the length of a walk, none exceeds the returned value, and that value, unless 0, is the distance of some tile |
| PipeMaze.StepsToFarthestPoint | 2023/day-10/src/main.rs:129-197 | a missing start or a neighbour outside the grid is a panic; on a sound sketch the search succeeds; the value is less than the number of tiles, is the largest distance assigned, and, when the start tile is `S`, the distances are the shortest walk lengths |
| PipeMaze.ConnectedSidesDistinct | 2023/day-10/src/main.rs:229-240 | the collected sides come from `Side::iter()` each at most once |
| PipeMaze.StartPipeOfConnected | 2023/day-10/src/main.rs:242-246 | two collected sides always make a start pipe, so only a count other than two panics |
| PipeMaze.SeedSide | 2023/day-10/src/main.rs:230-240 | one side of the start: a neighbour that connects back is copied and queued and its side recorded, and the round fails exactly when the side leads out of the grid |
| PipeMaze.SeedLoop | 2023/day-10/src/main.rs:222-240 | the copy holds Start at the start, the connecting neighbours queued in side order with their input pipes, and Ground elsewhere, the sides are recorded in order, and it fails exactly when a neighbour of the start lies outside the grid |
| PipeMaze.CopyStep | 2023/day-10/src/main.rs:258-261 | copying a Ground cell reached in one step keeps every copied cell a reached input tile and lowers the termination measure |
| PipeMaze.FollowSide | 2023/day-10/src/main.rs:254-261 | one side of the dequeued tile: a neighbour still Ground in the copy is copied from the input and queued, only such cells change, and the side then leads to a copied or queued cell; it fails exactly when the side leads out of the grid |
| PipeMaze.FollowPipes | 2023/day-10/src/main.rs:249-262 | after the inner loop every side of the tile leads to a copied or queued cell, only Ground cells were copied and they were queued, and it fails exactly when a side leads out of the grid |
| PipeMaze.CopyRound | 2023/day-10/src/main.rs:249-262 | one round keeps the copy invariant and the start pipe and lowers the termination measure, and on a sound sketch it does not panic |
| PipeMaze.WalkCopied | 2023/day-10/src/main.rs:249-262 | once the queue is empty and the start tile is `S`, the tile at the end of every walk from the start is copied |
| PipeMaze.CopyComplete | 2023/day-10/src/main.rs:221-269 | once the queue is empty and the start tile is `S`, every tile reached from the start holds its input pipe in the copy |
| PipeMaze.GetMainLoop | 2023/day-10/src/main.rs:221-269 | the result has the same size, replaces the start by the pipe joining its two connected sides, keeps only Ground or input pipes of tiles reached from the start, and, when the start tile is `S`, keeps the input pipe of every reached tile; a start without exactly two connected sides is a panic, and on a sound sketch with two there is none |
| PipeMaze.TilesEnclosed | 2023/day-10/src/main.rs:271-290 | the count is the number of Ground tiles with an odd number of inversions to their left in their row |
| PipeMaze.EnclosedAtMostGround | 2023/day-10/src/main.rs:271-290 | only Ground tiles are counted, so no row counts more than its Ground tiles |
| PipeMaze.SmallLoopEnclosesOne | 2023/day-10/src/main.rs:311-321 | the main loop of the small square sketch encloses exactly one tile |
| GearRatios.RunEndUnique | 2023/day-03/src/main.rs:157-161 | a digit run ends at the first non-digit, and only there |
| GearRatios.TokensTile | 2023/day-03/src/main.rs:152-187 | the tokens of a line cover it exactly: each number a maximal run of digits with its decimal value and length, each other character its own token, ids counting up from the parser's counter |
| GearRatios.TilesUnique | 2023/day-03/src/main.rs:152-187 | only one sequence of tokens covers a line in this way, so the covering defines the parser's output |
| GearRatios.TilesCover | 2023/day-03/src/main.rs:155-184 | the widths of the tokens add up to the line's length |
| GearRatios.TilesIds | 2023/day-03/src/main.rs:168-173 | number ids run from the counter upwards, one per number, strictly increasing |
| GearRatios.NextTokenOf | 2023/day-03/src/main.rs:152-187 | one step of `parse_line` yields the next token of the line, and reports whether a number there fits in `u32` |
| GearRatios.Parser.ParseLine | 2023/day-03/src/main.rs:152-187 | `parse_line` returns the tokens of the line and advances the counter by the number of numbers, and a number beyond `u32` is a panic |
| GearRatios.ParseExample | 2023/day-03/src/main.rs:215-236 | the tokens of `617*..63..` are the ones the unit test expects |
| GearRatios.Piece | 2023/day-03/src/main.rs:50-56 | a token fills as many cells as its width, each holding that token |
| GearRatios.EngineSchematic.InsertLine | 2023/day-03/src/main.rs:44-60 | the row receives the line's tokens laid out cell by cell, a number in `len` consecutive cells, with empty tokens leaving their cells unchanged |
| GearRatios.RowCellsAt | 2023/day-03/src/main.rs:44-60 | after insertion a cell of the row holds its laid-out token, and an empty token's cell is unset |
| GearRatios.EngineSchematic.InputSize | 2023/day-03/src/main.rs:33-38 | the size is the first line's length plus one and the number of lines of the trimmed input, and whitespace-only input is a panic |
| GearRatios.EngineSchematic.From | 2023/day-03/src/main.rs:62-72 | `from` fails exactly on whitespace-only input or a number beyond `u32`; otherwise it has the input's size and holds every line parsed and laid out at its row |
| GearRatios.LayoutCell | 2023/day-03/src/main.rs:152-187 | every cell of the built matrix holds a number exactly over a digit, namely the maximal digit run through it with its value, the character's own token over any other character, and nothing beyond the lines |
| GearRatios.EngineSchematic.Symbols | 2023/day-03/src/main.rs:74-88 | `symbols` returns the row-by-row scan of the symbol cells |
| GearRatios.SymbolsMeans | 2023/day-03/src/main.rs:74-88 | that scan holds exactly the symbol cells inside the matrix, with their gear flags, in row-major order |
| GearRatios.SymbolsExample | 2023/day-03/src/main.rs:268-286 | two symbols on the diagonal of a 2 by 2 matrix are found in scan order |
| GearRatios.Window | 2023/day-03/src/main.rs:99-110 | the scan window of `get_adjacent_numbers` is the symbol's neighbourhood whenever the symbol's row differs from the number of columns |
| GearRatios.Neighbourhood | 2023/day-03/src/main.rs:99-110 | a position is in the neighbourhood exactly when it is at most one row and one column from the symbol |
| GearRatios.EngineSchematic.GetAdjacentNumbers | 2023/day-03/src/main.rs:90-124 | the values of the numbers met scanning the source's window row by row, each id once, in scan order |
| GearRatios.EngineSchematic.NumbersIn | 2023/day-03/src/main.rs:111-121 | the nested scan of a window keeps each number whose id it has not met before |
| GearRatios.EngineSchematic.NumbersInRow | 2023/day-03/src/main.rs:111-121 | one row of the window scan keeps each number whose id has not been met, in column order |
| GearRatios.DistinctMeans | 2023/day-03/src/main.rs:113-118 | the kept numbers have pairwise different ids, each is a scanned number, and every scanned number's id is kept |
| GearRatios.WindowNumbersMeans | 2023/day-03/src/main.rs:111-121 | the scan of a window meets exactly the number cells inside the window |
| GearRatios.NeighbourNumbers | 2023/day-03/src/main.rs:90-124 | around a symbol the kept numbers have no id twice, each touches the symbol, and every number touching the symbol is kept |
| GearRatios.AdjacentExample | 2023/day-03/src/main.rs:289-322 | a symbol in the middle of a 3 by 3 matrix yields 12 once and then 3, as the unit test expects |
| GearRatios.WindowQuirk | 2023/day-03/src/main.rs:99-110 | for the input `"\n*.5"` the source's window takes in a 5 two columns from the gear, and the neighbourhood does not |
| GearRatios.EngineSchematic.AdjacentNumbers | 2023/day-03/src/main.rs:90-124 | the corrected scan runs over the symbol's neighbourhood |
| CubeConundrum.ColourOf | 2023/day-02/src/main.rs:55-60 | a word names a colour exactly when it is `red`, `green` or `blue`, and the colour's name is that word |
| CubeConundrum.ItemRoundTrip | 2023/day-02/src/main.rs:52-62 | an item `n colour` with `n` a `u8`, after any leading whitespace, parses back to its count and colour |
| CubeConundrum.LatestMeans | 2023/day-02/src/main.rs:49-67 | a colour no item names keeps 0, and otherwise takes the count of the last item naming it |
| CubeConundrum.LatestBound | 2023/day-02/src/main.rs:27-31 | counts parsed as `u8` leave every colour within `u8` |
| CubeConundrum.GameSetFromStr | 2023/day-02/src/main.rs:39-71 | `GameSet::from_str` gives the set its items describe, within `u8`, and an item that does not parse is a panic |
| CubeConundrum.ParseItemsEach | 2023/day-02/src/main.rs:39-71 | pieces that parse one by one to items parse together to the list of those items |
| CubeConundrum.SetRoundTrip | 2023/day-02/src/main.rs:39-71 | a set written as `3 blue, 4 red` parses back to the set its items describe |
| CubeConundrum.FirstU32None | 2023/day-02/src/main.rs:108-113 | the id search fails exactly when no word of the head parses as a `u32` |
| CubeConundrum.FirstU32At | 2023/day-02/src/main.rs:108-113 | the id is the first word of the head that parses as a `u32` |
| CubeConundrum.SetsRoundTrip | 2023/day-02/src/main.rs:115-120 | the `;`-separated sets, each trimmed, parse back to their sets in order |
| CubeConundrum.GameRoundTrip | 2023/day-02/src/main.rs:103-124 | a game line `Game <id>: <set>; <set>` with a `u32` id parses back to that id and those sets |
| CubeConundrum.ParseExample | 2023/day-02/src/main.rs:143-168 | the unit test's line parses to game 11 with sets (4, 0, 3), (1, 2, 6) and (0, 2, 0) |
| CubeConundrum.Check | 2023/day-02/src/main.rs:80-90 | a game is impossible exactly when some set shows more of a colour than the bag holds |
| CubeConundrum.AnyExceedsMeans | 2023/day-02/src/main.rs:81-85 | the `any` over the sets holds exactly when some set exceeds the bag |
| CubeConundrum.Minimum | 2023/day-02/src/main.rs:92-100 | `minimum` raises each colour, from 0, to the largest count of that colour over the sets |
| CubeConundrum.MinimumMeans | 2023/day-02/src/main.rs:92-100 | the minimum covers every set and is at most any set that covers every set, and it is all zeros with no sets |
| CubeConundrum.CheckMinimum | 2023/day-02/src/main.rs:80-100 | a game is possible against a bag exactly when its minimum fits in the bag |
| CubeConundrum.MinimumFits | 2023/day-02/src/main.rs:92-100 | the minimum of `u8` sets is a `u8` set |
| CubeConundrum.Power | 2023/day-02/src/main.rs:34-36 | the power is 0 exactly when some colour has no cubes |
| CubeConundrum.PowerFits | 2023/day-02/src/main.rs:34-36 | the product of three `u8` counts is within `u64`, so the `u64` product never overflows |
| CubeConundrum.PowerExample | 2023/day-02/src/main.rs:310-316 | the third example game's minimum is 20 red, 13 green and 6 blue, of power 1560 |
| CamelCards.CardIndex | 2023/day-07/src/main.rs:27-50 | every card has a place in the list of cards in declaration order |
| CamelCards.CardOrder | 2023/day-07/src/main.rs:27-50 | the derived card order ranks `J` lowest, then `2` to `9`, `T`, `Q`, `K`, `A`, each strictly above the one before |
| CamelCards.CardRankInjective | 2023/day-07/src/main.rs:27-50 | two cards of the same rank are the same card |
| CamelCards.TypeOrder | 2023/day-07/src/main.rs:16-25 | the hand types rank from high card up to five of a kind, each strictly above the one before, and no two types share a rank |
| CamelCards.CardOf | 2023/day-07/src/main.rs:27-50 | a character that parses as a card is that card's symbol |
| CamelCards.CardOfChar | 2023/day-07/src/main.rs:27-50 | every card's symbol parses back to that card |
| CamelCards.CardOfOther | 2023/day-07/src/main.rs:111 | a character that is no card's symbol does not parse |
| CamelCards.CardsOf | 2023/day-07/src/main.rs:106-113 | a word that parses gives one card per character |
| CamelCards.CardsText | 2023/day-07/src/main.rs:27-50 | writing cards gives one character per card |
| CamelCards.CardsRoundTrip | 2023/day-07/src/main.rs:106-113 | writing any cards and parsing the word gives the same cards |
| CamelCards.CardsOfText | 2023/day-07/src/main.rs:106-113 | a word that parses is the text of the cards it parses to |
| CamelCards.CardsOfBad | 2023/day-07/src/main.rs:111 | a word with any character that is not a card fails to parse |
| CamelCards.ParseHand | 2023/day-07/src/main.rs:103-117 | a parsed hand has exactly five cards and a `u16` number of points |
| CamelCards.ParseHandRoundTrip | 2023/day-07/src/main.rs:103-117 | a hand of five cards and `u16` points, written as `<cards> <points>`, parses back to that hand |
| CamelCards.ParseHandWords | 2023/day-07/src/main.rs:103-117 | a parsed hand comes from the first two words of the line, its cards from the first and its points from the second |
| CamelCards.ParseHandNotFive | 2023/day-07/src/main.rs:106-113 | a line whose first word is not five characters long fails, as the `try_into` into five cards panics |
| CamelCards.Bump | 2023/day-07/src/main.rs:61-63 | counting one more card adds that card to the kinds seen and keeps the others |
| CamelCards.CountsMeans | 2023/day-07/src/main.rs:60-63 | a card is in the counts exactly when it is in the hand, and its count is the number of times it occurs |
| CamelCards.CountsOnMultiset | 2023/day-07/src/main.rs:60-63 | hands with the same cards in any order have the same counts |
| CamelCards.CountsPositive | 2023/day-07/src/main.rs:60-63 | every count in the map is at least 1 |
| CamelCards.CountKinds | 2023/day-07/src/main.rs:60-63 | the counting loop over the five cards builds exactly the counts of the hand |
| CamelCards.Biggest | 2023/day-07/src/main.rs:65-77 | the fold picks a kind other than `J` that is in the counts, together with its count |
| CamelCards.BiggestMax | 2023/day-07/src/main.rs:65-77 | when some kind other than `J` is counted, the fold picks one, and no other kind has a larger count |
| CamelCards.BiggestNone | 2023/day-07/src/main.rs:65-77 | with no kind other than `J` counted, the fold picks nothing |
| CamelCards.GiveJokers | 2023/day-07/src/main.rs:78-81 | after the move, `J` is gone, the receiving kind holds its count plus the jokers, and every other count is unchanged |
| CamelCards.JokersToBiggest | 2023/day-07/src/main.rs:64-81 | with jokers and another kind present, the jokers go to a kind of the largest count |
| CamelCards.JokersKept | 2023/day-07/src/main.rs:64-78 | with no jokers, or only jokers, the counts are left as they are |
| CamelCards.JokersSum | 2023/day-07/src/main.rs:64-81 | moving the jokers keeps the total of the counts and keeps every count positive |
| CamelCards.CountsSum | 2023/day-07/src/main.rs:60-63 | the counts of a hand add up to its number of cards |
| CamelCards.AnyWithCount | 2023/day-07/src/main.rs:85-91 | some kind has count `v` exactly when the number of kinds with count `v` is positive |
| CamelCards.ShapeMeans | 2023/day-07/src/main.rs:83-96 | the multiset of counts has one element per kind, and holds `v` as often as there are kinds of count `v` |
| CamelCards.ShapeOfInjective | 2023/day-07/src/main.rs:83-96 | different hand types have different multisets of counts |
| CamelCards.Tally | 2023/day-07/src/main.rs:83-96 | counts between 1 and 5 that add up to 5 tally to one of the seven shapes |
| CamelCards.ShapeOfTally | 2023/day-07/src/main.rs:83-96 | for counts that add up to 5, the chain of conditions picks a type, and the counts are that type's shape |
| CamelCards.ShapesOfFive | 2023/day-07/src/main.rs:83-96 | positive counts that add up to 5 always meet one of the chain's conditions, and their multiset is that type's shape |
| CamelCards.ClassifyShape | 2023/day-07/src/main.rs:83-99 | the chain of conditions depends only on the number of kinds and the multiset of counts |
| CamelCards.ClassifyFive | 2023/day-07/src/main.rs:83-99 | positive counts that add up to 5 always get a type, and are that type's shape |
| CamelCards.NeverPanics | 2023/day-07/src/main.rs:59-100 | for every five-card hand and every iteration order, `get_type` reaches a type and never the `panic!` branch |
| CamelCards.TypeByShape | 2023/day-07/src/main.rs:59-100 | a hand has type `t` exactly when its counts, after the jokers move, are the shape of `t` |
| CamelCards.ClassifySwap | 2023/day-07/src/main.rs:83-99 | swapping the counts of two kinds does not change the type |
| CamelCards.JokersAnyOrder | 2023/day-07/src/main.rs:64-82 | the type does not depend on the map's iteration order, even when two kinds tie for the largest count |
| CamelCards.TypeOfMultiset | 2023/day-07/src/main.rs:59-100 | hands with the same cards in any order, under any iteration orders, have the same type |
| CamelCards.AllJokers | 2023/day-07/src/main.rs:64-84 | a hand of jokers only keeps its jokers and is five of a kind |
| CamelCards.TypeAnyOrder | 2023/day-07/src/main.rs:59-100 | under any iteration order, a five-card hand always gets its one order-independent type |
| CamelCards.GetType | 2023/day-07/src/main.rs:59-100 | the method counts, moves the jokers and classifies, and returns the hand's type, the same for every iteration order |
| CamelCards.CardsFirstDifference | 2023/day-07/src/main.rs:127 | card lists are ordered by their first differing card |
| CamelCards.CardsFlip | 2023/day-07/src/main.rs:127 | comparing card lists the other way round flips the result |
| CamelCards.CardsEqual | 2023/day-07/src/main.rs:127 | card lists compare equal exactly when they are the same |
| CamelCards.CardsTransitive | 2023/day-07/src/main.rs:127 | the card-by-card order is transitive |
| CamelCards.CompareByType | 2023/day-07/src/main.rs:120-131 | a hand of a lower type is below a hand of a higher type, whatever their cards |
| CamelCards.CompareByCards | 2023/day-07/src/main.rs:120-131 | between hands of the same type, the first differing card decides |
| CamelCards.CompareFlip | 2023/day-07/src/main.rs:120-138 | comparing hands the other way round flips the result |
| CamelCards.CompareEqual | 2023/day-07/src/main.rs:120-138 | two hands compare equal exactly when they have the same cards, points aside |
| CamelCards.CompareTransitive | 2023/day-07/src/main.rs:120-138 | the hand order is transitive |
| CamelCards.BelowStrict | 2023/day-07/src/main.rs:120-138 | "below" on five-card hands is a strict order |
| CamelCards.AscendingByNeighbours | 2023/day-07/src/main.rs:120-138 | a list of hands whose neighbours are in order is in order throughout |
| CamelCards.AscendingUnique | 2023/day-07/src/main.rs:120-138 | two strictly ascending arrangements of the same hands are identical, so for hands whose cards differ pairwise a sort has one possible result |
| CamelCards.Weighted | 2023/day-07/src/main.rs:140-144 | the `i`-th hand of the sorted list is weighted by its rank `i + 1` times its points |
| CamelCards.WinningsSum | 2023/day-07/src/main.rs:140-144 | the fold over the first `k` hands adds up their weighted points |
| CamelCards.TotalWinningsSum | 2023/day-07/src/main.rs:140-144 | the total winnings are the sum of rank times points over the hands |
| CamelCards.WinningsBound | 2023/day-07/src/main.rs:140-144 | the winnings over `k` hands of `u16` points are at most `k(k+1)/2` times the largest `u16` |
| CamelCards.WinningsFitU64 | 2023/day-07/src/main.rs:140-144 | with at most 2^24 hands of `u16` points, the `u64` fold does not overflow |
| CamelCardsExamples.ParseExample | 2023/day-07/src/main.rs:176-186 | `32T3K 765` parses to the hand with cards 3, 2, T, 3, K and 765 points |
| CamelCardsExamples.CardsAAAAAType | 2023/day-07/src/main.rs:193-197 | `AAAAA` is five of a kind |
| CamelCardsExamples.CardsAA8AAType | 2023/day-07/src/main.rs:199-203 | `AA8AA` is four of a kind |
| CamelCardsExamples.Cards23332Type | 2023/day-07/src/main.rs:205-209 | `23332` is a full house |
| CamelCardsExamples.CardsTTT98Type | 2023/day-07/src/main.rs:211-215 | `TTT98` is three of a kind |
| CamelCardsExamples.Cards23432Type | 2023/day-07/src/main.rs:217-221 | `23432` is two pair |
| CamelCardsExamples.CardsA23A4Type | 2023/day-07/src/main.rs:223-227 | `A23A4` is one pair |
| CamelCardsExamples.Cards23456Type | 2023/day-07/src/main.rs:229-233 | `23456` is a high card |
| CamelCardsExamples.CardsT55J5Type | 2023/day-07/src/main.rs:250-253 | `T55J5` is four of a kind once its joker joins the fives |
| CamelCardsExamples.CardsKTJJTType | 2023/day-07/src/main.rs:258-261 | `KTJJT` is four of a kind once its jokers join the tens |
| CamelCardsOrderExamples.ExampleChained | 2023/day-07/src/main.rs:239-263 | each hand of the expected sorted list is below the next |
| CamelCardsOrderExamples.ExampleOrdering | 2023/day-07/src/main.rs:235-264 | the expected sorted list is strictly ascending |
| CamelCardsOrderExamples.ExampleSortedUnique | 2023/day-07/src/main.rs:235-264 | any ascending arrangement of those five hands is exactly the expected list |
| CamelCardsOrderExamples.ExampleWinnings | 2023/day-07/src/main.rs:266-271 | the total winnings of the sorted example are 5905 |
| Scratchcards.MatchesMeans | 2023/day-04/src/main.rs:31-37 | a number is among a card's matches exactly when it is both a winning number and one of the card's numbers |
| Scratchcards.MatchesCount | 2023/day-04/src/main.rs:31-37 | each winning number that the card holds is kept as often as it is listed, and every other number is dropped |
| Scratchcards.MatchesAppend | 2023/day-04/src/main.rs:31-37 | the matches of two lists of winning numbers, one after the other, are the matches of each, in order |
| Scratchcards.WinningNums | 2023/day-04/src/main.rs:31-37 | a card has at most as many matches as winning numbers |
| Scratchcards.ScoreDoubles | 2023/day-04/src/main.rs:73-83 | no match scores 0, the first match scores 1, and each further match doubles the score |
| Scratchcards.PointsAppend | 2023/day-04/src/main.rs:73-83 | the points of two lists of cards are the sum of the points of each |
| Scratchcards.PointsZero | 2023/day-04/src/main.rs:73-83 | the points are 0 exactly when no card has a match |
| Scratchcards.Pow2Add | 2023/day-04/src/main.rs:80 | powers of two multiply by adding exponents |
| Scratchcards.Pow2Mono | 2023/day-04/src/main.rs:80 | a larger exponent gives at least as large a power of two |
| Scratchcards.ScoreFitsU64 | 2023/day-04/src/main.rs:79-80 | with at most 64 matches, `2_u64.pow` of the match count minus one does not overflow |
| Scratchcards.ParseNums | 2023/day-04/src/main.rs:56-62 | numbers that parse are one per word, each a `u8` |
| Scratchcards.ParseCard | 2023/day-04/src/main.rs:40-70 | a parsed card has one instance, a `u8` id and `u8` numbers |
| Scratchcards.ParseNumsDecimals | 2023/day-04/src/main.rs:56-62 | `u8` numbers, written in decimal, parse back to the same numbers |
| Scratchcards.HeadRoundTrip | 2023/day-04/src/main.rs:44-52 | the second word of `Card <id>` parses back to the id |
| Scratchcards.ListsRoundTrip | 2023/day-04/src/main.rs:54-67 | the two lists, written around `|`, split and parse back to the winning numbers and the card's numbers |
| Scratchcards.ParseCardRoundTrip | 2023/day-04/src/main.rs:40-70 | a card with a `u8` id and `u8` numbers, written as `Card <id>: <winning> | <numbers>`, parses back to that card with one instance |
| Scratchcards.ParseCardNoColon | 2023/day-04/src/main.rs:44-54 | a line without `:` fails to parse, as the second `next().unwrap()` panics |
| Scratchcards.StepAt | 2023/day-04/src/main.rs:89-93 | handling card `i` adds its instances to each of the next `wins` cards that exist, and changes nothing else |
| Scratchcards.PrefixSettled | 2023/day-04/src/main.rs:85-94 | once the pass has handled a card, no later step changes it |
| Scratchcards.PrefixLists | 2023/day-04/src/main.rs:85-94 | the pass never changes a card's numbers, so each card keeps its number of matches |
| Scratchcards.PrefixSame | 2023/day-04/src/main.rs:85-94 | the pass keeps every card's id and numbers and never lowers a count |
| Scratchcards.PrefixInflow | 2023/day-04/src/main.rs:85-94 | after the pass has handled the first `i` cards, card `k` holds its own instances plus what those cards have won for it |
| Scratchcards.InflowCopies | 2023/day-04/src/main.rs:85-94 | what the earlier cards win for card `k` is the sum of the copies of each earlier card whose window reaches `k` |
| Scratchcards.DiagonalCopies | 2023/day-04/src/main.rs:85-94 | when the pass reaches card `j`, its count is final and equals its number of copies by the reference definition |
| Scratchcards.ProcessedCopies | 2023/day-04/src/main.rs:85-95 | after the pass, each card holds its own instance plus one copy for every copy of each earlier card whose matches reach it |
| Scratchcards.ProcessedKeeps | 2023/day-04/src/main.rs:85-95 | the pass keeps every card's id and numbers, never lowers a count, and leaves the first card as it is |
| Scratchcards.BumpedTwice | 2023/day-04/src/main.rs:89-93 | adding to the same window twice adds the sum |
| Scratchcards.BumpWindow | 2023/day-04/src/main.rs:90-92 | the inner loop adds one instance to each card in the window and changes nothing else |
| Scratchcards.AddCopies | 2023/day-04/src/main.rs:89-93 | repeating the inner loop as many times as the current card has instances adds that many to each card in the window |
| Scratchcards.ProcessCards | 2023/day-04/src/main.rs:85-95 | the in-place pass over the array leaves exactly the processed cards |
| Scratchcards.TotalAtLeast | 2023/day-04/src/main.rs:85-95 | processing never lowers the total number of cards |
| ScratchcardsExamples.ParseExample | 2023/day-04/src/main.rs:113-124 | the line of card 13 parses to id 13, its two lists and one instance |
| ScratchcardsExamples.Winning1 | 2023/day-04/src/main.rs:126-131 | card 1 of the example matches 48, 83, 86 and 17 |
| ScratchcardsExamples.Winning2 | 2023/day-04/src/main.rs:133-138 | card 2 matches 32 and 61 |
| ScratchcardsExamples.Winning3 | 2023/day-04/src/main.rs:140-145 | card 3 matches 1 and 21 |
| ScratchcardsExamples.Winning4 | 2023/day-04/src/main.rs:147-152 | card 4 matches 84 |
| ScratchcardsExamples.Winning5 | 2023/day-04/src/main.rs:154-159 | card 5 matches nothing |
| ScratchcardsExamples.Winning6 | 2023/day-04/src/main.rs:161-166 | card 6 matches nothing |
| ScratchcardsExamples.PointsExample | 2023/day-04/src/main.rs:168-179 | the match lists of the example score 13 points |
| ScratchcardsExamples.ProcessShape | 2023/day-04/src/main.rs:201-240 | six one-instance cards with 4, 2, 2, 1, 0 and 0 matches end with 1, 2, 4, 8, 14 and 1 instances |
| ScratchcardsExamples.ProcessExample | 2023/day-04/src/main.rs:201-240 | processing the example cards gives the expected cards |
| ScratchcardsExamples.TotalExample | 2023/day-04/src/main.rs:201-243 | the processed example holds 30 cards in total |
| Position.AbsDiff | 2023/day-11/src/position.rs:32-33 | the difference added to the smaller component gives the larger |
| Position.Sub | 2023/day-11/src/position.rs:26-36 | each component of the result is the distance between the two components |
| Position.SubSymmetric | 2023/day-11/src/position.rs:26-36 | the difference does not depend on the order of the operands |
| Position.SubZero | 2023/day-11/src/position.rs:26-36 | the difference is zero exactly when the coordinates are equal |
| Position.DistanceManhattan | 2023/day-11/src/position.rs:12-16 | the distance is the Manhattan distance between the two positions |
| Position.DistanceSymmetric | 2023/day-11/src/position.rs:12-16 | the distance is symmetric |
| Position.DistanceZero | 2023/day-11/src/position.rs:12-16 | the distance is zero exactly between equal coordinates |
| Position.DistanceTriangle | 2023/day-11/src/position.rs:12-16 | the distance obeys the triangle inequality |
| Position.IntoCoordinatesOfNew | 2023/day-11/src/position.rs:41-48 | a pair gives back its two coordinates in the order it was built with |
| Position.PairEqMultiset | 2023/day-11/src/position.rs:51-55 | two pairs are equal exactly when they hold the same two coordinates, counted with repetition |
| Position.PairEqReflexive | 2023/day-11/src/position.rs:51-55 | every pair equals itself |
| Position.PairEqSymmetric | 2023/day-11/src/position.rs:51-55 | pair equality is symmetric |
| Position.PairEqTransitive | 2023/day-11/src/position.rs:51-55 | pair equality is transitive |
| Position.PairCrossed | 2023/day-11/src/position.rs:51-55 | a pair equals the pair of the same coordinates in the other order |
| Position.PairEqTupleMeans | 2023/day-11/src/position.rs:57-62 | comparing a pair with a tuple of coordinates is comparing it with the pair built from the tuple |
| Position.PairEqDistance | 2023/day-11/src/position.rs:51-55 | equal pairs are equally far apart |
| PositionExamples.Sub1 | 2023/day-11/src/position.rs:70-75 | (2, 5) minus (6, 4) is (4, 1) |
| PositionExamples.Sub2 | 2023/day-11/src/position.rs:77-82 | (123, 654) minus (56, 44) is (67, 610) |
| PositionExamples.Sub3 | 2023/day-11/src/position.rs:84-89 | (65, 10) minus (19, 90) is (46, 80) |
| PositionExamples.Distance1 | 2023/day-11/src/position.rs:91-96 | (5, 1) and (0, 5) are 9 apart |
| PositionExamples.Distance2 | 2023/day-11/src/position.rs:98-103 | (9, 0) and (4, 12) are 17 apart |
| PositionExamples.PairNormal | 2023/day-11/src/position.rs:105-112 | a pair equals the same pair |
| PositionExamples.PairCrossedExample | 2023/day-11/src/position.rs:114-121 | a pair equals its reverse |
| Observatory.ItemOfChar | 2023/day-11/src/observatory.rs:12-18 | writing an item and parsing the character gives the item back |
| Observatory.ItemOfMeans | 2023/day-11/src/observatory.rs:12-18 | only `.` and `#` parse, and a parsed item writes back as its character |
| Observatory.ParseRow | 2023/day-11/src/observatory.rs:46-50 | a parsed line has one item per character |
| Observatory.ParseImage | 2023/day-11/src/observatory.rs:44-51 | a parsed image has one row per line |
| Observatory.FromStr | 2023/day-11/src/observatory.rs:43-61 | a parsed observation has one row per line and only galaxies inside its bounds |
| Observatory.ParseRowText | 2023/day-11/src/observatory.rs:46-50 | a line of `.` and `#` parses, cell by cell, to the items those characters name |
| Observatory.ParseRowBad | 2023/day-11/src/observatory.rs:48-49 | a line with any other character fails to parse |
| Observatory.ParseImageText | 2023/day-11/src/observatory.rs:44-51 | an image of `.` and `#` parses line by line |
| Observatory.ParseImageBad | 2023/day-11/src/observatory.rs:51 | one bad character fails the whole image |
| Observatory.FromStrBad | 2023/day-11/src/observatory.rs:43-51 | text with a character other than `.` and `#` on a line is a parse error |
| Observatory.PictureLines | 2023/day-11/src/observatory.rs:44-45 | a picture written one line at a time splits back into its lines |
| Observatory.FromStrPicture | 2023/day-11/src/observatory.rs:43-61 | a rectangular picture parses to its size, with a galaxy exactly at each `#` |
| Observatory.ParseDisplay | 2023/day-11/src/observatory.rs:43-74 | a rectangular picture, parsed and written back, gives the same text |
| Observatory.RowsPicture | 2023/day-11/src/observatory.rs:64-74 | the written rows are a rectangular picture whose characters are the cells' items |
| Observatory.SameCells | 2023/day-11/src/observatory.rs:29-32 | observations of the same size with the same item in every cell are equal |
| Observatory.DisplayParse | 2023/day-11/src/observatory.rs:43-74 | writing an observation and parsing the text gives the same observation |
| Observatory.RowText | 2023/day-11/src/observatory.rs:67-69 | a written row has one character per column |
| Observatory.Rows | 2023/day-11/src/observatory.rs:66-71 | the text has one row per row of the matrix |
| Observatory.RowVoids | 2023/day-11/src/observatory.rs:89-95 | there is one emptiness flag per row |
| Observatory.ColumnVoids | 2023/day-11/src/observatory.rs:98-104 | there is one emptiness flag per column |
| Observatory.ScanFrom | 2023/day-11/src/observatory.rs:82-87 | the scan yields one running total per flag |
| Observatory.ScanOffsets | 2023/day-11/src/observatory.rs:82-96 | the offsets have one entry per flag |
| Observatory.RowsOffset | 2023/day-11/src/observatory.rs:89-97 | there is one offset per row |
| Observatory.ColumnsOffset | 2023/day-11/src/observatory.rs:98-106 | there is one offset per column |
| Observatory.Expanded | 2023/day-11/src/observatory.rs:80-122 | expansion is defined exactly when `to > 1` |
| Observatory.ShiftedAdd | 2023/day-11/src/observatory.rs:112-116 | writing one more galaxy adds exactly the cell it lands on |
| Observatory.Expand | 2023/day-11/src/observatory.rs:80-122 | the loop over the stored galaxies builds the expanded observation, and `to <= 1` is an error |
| Observatory.CountTrueAppend | 2023/day-11/src/observatory.rs:89-106 | the number of empty rows or columns of two stretches adds up |
| Observatory.ScanFromAt | 2023/day-11/src/observatory.rs:82-87 | each running total is the start plus `to - 1` for every flag set up to and including that entry |
| Observatory.RowsOffsetAt | 2023/day-11/src/observatory.rs:89-97 | the offset of row `y` is `to - 1` times the empty rows among the first `y + 1` |
| Observatory.ColumnsOffsetAt | 2023/day-11/src/observatory.rs:98-106 | the offset of column `x` is `to - 1` times the empty columns among the first `x + 1` |
| Observatory.ScanGap | 2023/day-11/src/observatory.rs:82-87 | between two entries the offset grows by `to - 1` for every flag set between them |
| Observatory.ExpandedSize | 2023/day-11/src/observatory.rs:108-110 | the expanded matrix has `to - 1` more rows per empty row and `to - 1` more columns per empty column |
| Observatory.ShiftGap | 2023/day-11/src/observatory.rs:112-116 | two cells in order land as far apart as before plus `to - 1` per empty row or column between them |
| Observatory.ShiftRows | 2023/day-11/src/observatory.rs:113 | the row distance of two cells grows by `to - 1` per empty row between them |
| Observatory.ShiftColumns | 2023/day-11/src/observatory.rs:114 | the column distance of two cells grows by `to - 1` per empty column between them |
| Observatory.ShiftDistance | 2023/day-11/src/observatory.rs:112-116 | after expansion two galaxies are as far apart as before plus `to - 1` for every empty row and every empty column between them |
| Observatory.ShiftMonotone | 2023/day-11/src/observatory.rs:112-116 | expansion keeps the order of rows and columns and brings no two cells closer |
| Observatory.ShiftInjective | 2023/day-11/src/observatory.rs:112-116 | no two cells land on the same cell |
| Observatory.ShiftInside | 2023/day-11/src/observatory.rs:108-116 | every cell lands inside the expanded matrix, so no `set` is out of bounds |
| Observatory.ExpandedValid | 2023/day-11/src/observatory.rs:108-116 | every galaxy of the expanded observation lies inside it |
| Observatory.ExpandedMeans | 2023/day-11/src/observatory.rs:110-116 | an expanded cell holds a galaxy exactly when some galaxy lands on it |
| Observatory.ImageCount | 2023/day-11/src/observatory.rs:112-116 | moving any set of galaxies keeps their number |
| Observatory.ExpandedCount | 2023/day-11/src/observatory.rs:112-116 | expansion keeps the number of galaxies |
| Observatory.GalaxyRowNotVoid | 2023/day-11/src/observatory.rs:89-106 | a row or column holding a galaxy is not empty |
| Observatory.ToGalaxies | 2023/day-11/src/observatory.rs:126-132 | the list holds every galaxy exactly once and nothing else |
| CosmicExpansion.Contains | 2023/day-11/src/main.rs:29 | the search finds a recorded pair equal to the given one, in either order, exactly when there is one |
| CosmicExpansion.ContainsPairMeans | 2023/day-11/src/main.rs:29 | a pair is recorded exactly when some recorded pair equals it |
| CosmicExpansion.CollectPairs | 2023/day-11/src/main.rs:25-30 | the pairs collected for a galaxy are those with every other galaxy that are not recorded yet, in order |
| CosmicExpansion.Record | 2023/day-11/src/main.rs:31-35 | recording appends the pairs and adds their distances to the sum |
| CosmicExpansion.MinDistanceSum | 2023/day-11/src/main.rs:20-38 | the result is the sum of the distances of the recorded pairs and, for different galaxies, of every unordered pair once |
| CosmicExpansion.PartOne | 2023/day-11/src/main.rs:8-18 | with expansion factor 2, the answer is the distance sum over every unordered pair of a list holding each expanded galaxy once |
| CosmicExpansion.DistinctTotal | 2023/day-11/src/main.rs:20-38 | for different galaxies, the recorded pairs add up to the sum over every unordered pair |
| CosmicExpansion.NewPairsMembers | 2023/day-11/src/main.rs:25-30 | every new pair is the galaxy with a different galaxy |
| CosmicExpansion.NewPairsCovers | 2023/day-11/src/main.rs:25-30 | every different galaxy whose pair is not recorded yet gives a new pair |
| CosmicExpansion.SeenMembers | 2023/day-11/src/main.rs:21-31 | every recorded pair joins an earlier galaxy with a different one |
| CosmicExpansion.SeenCovers | 2023/day-11/src/main.rs:21-31 | after a galaxy's turn, its pair with every different galaxy is recorded in one order or the other |
| CosmicExpansion.SeenBefore | 2023/day-11/src/main.rs:21-31 | for different galaxies, a galaxy's pair with another is recorded before its turn exactly when the other came earlier |
| CosmicExpansion.NewPairsAreRow | 2023/day-11/src/main.rs:24-30 | for different galaxies, a galaxy's turn pairs it with exactly the later galaxies |
| CosmicExpansion.SeenIsAllPairs | 2023/day-11/src/main.rs:21-36 | for different galaxies, the recorded pairs are every unordered pair once |
| CosmicExpansion.RowPairs | 2023/day-11/src/main.rs:24-30 | a galaxy has one pair with each later galaxy |
| CosmicExpansion.RowPairsMeans | 2023/day-11/src/main.rs:24-30 | a galaxy's row holds exactly its pairs with the later galaxies |
| CosmicExpansion.AllPairsMeans | 2023/day-11/src/main.rs:20-38 | the reference holds exactly the pairs of a galaxy with a later one |
| CosmicExpansion.AllPairsLength | 2023/day-11/src/main.rs:20-38 | the first `n` rows hold `n(2m - n - 1)/2` pairs for `m` galaxies |
| CosmicExpansion.AllPairsCount | 2023/day-11/src/main.rs:20-38 | there are `m(m - 1)/2` pairs for `m` galaxies |
| CosmicExpansion.PairsDistanceAppend | 2023/day-11/src/main.rs:32-37 | the distance sum of two lists of pairs adds up |
| CosmicExpansion.AllPairsDistanceStep | 2023/day-11/src/main.rs:32-37 | the sum over the first `n` rows is the sum over `n - 1` rows plus row `n - 1` |
| CosmicExpansionExamples.ThreePairs | 2023/day-11/src/main.rs:20-38 | three galaxies form three pairs, in the order the turns take them |
| CosmicExpansionExamples.ThreeGalaxies | 2023/day-11/src/main.rs:20-38 | three galaxies 3, 5 and 6 apart give the sum 14 |
| NumberTheory.Gcd | 2023/day-08/src/main.rs:106 | the gcd is zero exactly when both numbers are zero |
| NumberTheory.GcdDivides | 2023/day-08/src/main.rs:106 | the gcd divides both numbers |
| NumberTheory.GcdGreatest | 2023/day-08/src/main.rs:106 | every common divisor of the two numbers divides the gcd |
| NumberTheory.Bezout | 2023/day-08/src/main.rs:106 | the gcd is an integer combination of the two numbers |
| NumberTheory.LcmMultiple | 2023/day-08/src/main.rs:106 | the lcm is a multiple of both numbers |
| NumberTheory.LcmLeast | 2023/day-08/src/main.rs:106 | the lcm divides every common multiple of the two numbers |
| NumberTheory.LcmOf | 2023/day-08/src/main.rs:106 | `lcmx` has a result exactly when the list is not empty |
| NumberTheory.LcmSeqMultiple | 2023/day-08/src/main.rs:106 | every element of a list divides the lcm of the list |
| NumberTheory.LcmSeqLeast | 2023/day-08/src/main.rs:106 | the lcm of a list divides every common multiple of its elements |
| NumberTheory.LcmSeqOrder | 2023/day-08/src/main.rs:85-106 | the lcm of a list does not depend on the order of its elements, so the order of the `HashMap` keys does not matter |
| NumberTheory.DividesAntisymmetric | 2023/day-08/src/main.rs:106 | two numbers that divide each other are equal |
| HauntedWasteland.InstructionOfChar | 2023/day-08/src/main.rs:16-22 | each instruction parses back from the character it is written with |
| HauntedWasteland.InstructionOfMeans | 2023/day-08/src/main.rs:16-22 | only `L` and `R` parse, each to the instruction written with it |
| HauntedWasteland.ParseInstructions | 2023/day-08/src/main.rs:113-119 | a parsed first line has one instruction per character, each written with that character; parsing fails exactly when some character is neither `L` nor `R` |
| HauntedWasteland.ParseInstructionsText | 2023/day-08/src/main.rs:113-119 | writing instructions out and parsing the line gives them back |
| HauntedWasteland.NodeFromStr | 2023/day-08/src/main.rs:40-48 | a parsed node names two neighbours of three non-whitespace characters each |
| HauntedWasteland.NodeRoundTrip | 2023/day-08/src/main.rs:40-48 | `(BBB, CCC)` parses to the node with left `BBB` and right `CCC` |
| HauntedWasteland.NodeFromStrTooFewWords | 2023/day-08/src/main.rs:43-45 | a text with fewer than two words panics |
| HauntedWasteland.ParseEntry | 2023/day-08/src/main.rs:122-126 | an entry line is at least six characters long, its key is its first three characters and its node is parsed from position six; a shorter line panics |
| HauntedWasteland.ParseEntries | 2023/day-08/src/main.rs:120-127 | the entries have one entry per line, each parsed from its line; parsing fails exactly when some line fails |
| HauntedWasteland.CollectKeys | 2023/day-08/src/main.rs:127-127 | the collected map's keys are exactly the entries' keys |
| HauntedWasteland.CollectLastWins | 2023/day-08/src/main.rs:127-127 | a key maps to the node of its last entry |
| HauntedWasteland.MapFromStr | 2023/day-08/src/main.rs:110-134 | a parsed map's instructions are parsed from the first line |
| HauntedWasteland.ParseEntryLine | 2023/day-08/src/main.rs:122-126 | an entry written as `AAA = (BBB, CCC)` parses back to itself |
| HauntedWasteland.MapTextLines | 2023/day-08/src/main.rs:113-121 | a map's text splits into its instructions line, a blank line and one line per entry |
| HauntedWasteland.ParseEntryLines | 2023/day-08/src/main.rs:120-127 | entry lines written out parse back to the entries |
| HauntedWasteland.MapRoundTrip | 2023/day-08/src/main.rs:110-134 | parsing a map written out line by line gives its instructions and the collected entries back |
| HauntedWasteland.WalkRebuildsNode | 2023/day-08/src/main.rs:76-82 | walking left and walking right from a key give back its node, and walking from a name that is not a key fails |
| HauntedWasteland.AfterStep | 2023/day-08/src/main.rs:61-66 | the name reached after one more step is a walk from the name reached before it, by the next instruction of the cycle |
| HauntedWasteland.WalkToZzz | 2023/day-08/src/main.rs:57-74 | the walk from `AAA` panics without `AAA`, takes no step without instructions, and otherwise ends with the record of the steps to the first `ZZZ`, gets stuck at a step that reaches a name that is not a key, or spends its budget without reaching `ZZZ` |
| HauntedWasteland.ZzzStepsEnds | 2023/day-08/src/main.rs:57-74 | the last entry of the record is `ZZZ` and no earlier entry is |
| HauntedWasteland.ZzzStepsUnique | 2023/day-08/src/main.rs:57-74 | the walk from `AAA` has a single record |
| HauntedWasteland.ZzzOutcomesExclusive | 2023/day-08/src/main.rs:57-74 | a walk that reaches `ZZZ` neither gets stuck nor goes on past the arrival without reaching it |
| HauntedWasteland.StepsToZ | 2023/day-08/src/main.rs:91-104 | the walk from one start ends with the number of steps to the first name ending in `Z`, panics at a step from a name that is not a key, or spends its budget |
| HauntedWasteland.ZCountUnique | 2023/day-08/src/main.rs:95-101 | a start has at most one step count |
| HauntedWasteland.CountOutcomesExclusive | 2023/day-08/src/main.rs:95-101 | a walk that arrives neither gets stuck nor is still on its way past its count |
| HauntedWasteland.CountSteps | 2023/day-08/src/main.rs:85-105 | every start ending in `A` is walked once: the counts belong to starts and every start has its count |
| HauntedWasteland.WalkToZPar | 2023/day-08/src/main.rs:84-107 | the result is the lcm of the step counts of the keys ending in `A`; no such key, or a walk that panics, panics; with no instructions every count, and so the result, is zero |
| HauntedWasteland.ParDone | 2023/day-08/src/main.rs:105-106 | counts for every start, and only counts, give the lcm of all the step counts |
| HauntedWasteland.CountsLcm | 2023/day-08/src/main.rs:105-106 | the lcm of a list of counts covering every start is a common multiple of the counts that divides every other |
| HauntedWasteland.ParResultUnique | 2023/day-08/src/main.rs:84-107 | when every start has a count, the lcm of the counts is a single number, whatever the order of the keys |
| HauntedWastelandExamples.ExampleCollect | 2023/day-08/src/main.rs:155-166 | `HashMap::from` of the test's entries is the network of the test |
| HauntedWastelandExamples.Parse | 2023/day-08/src/main.rs:149-168 | the text of the test's map parses to instructions `L`, `R` and its eight nodes |
| HauntedWastelandExamples.WalkPar | 2023/day-08/src/main.rs:170-175 | in the test's network the counts are 2 and 3, within three steps, and the result is 6 |
| SeedAlmanac.Image | 2023/day-05/src/main.rs:24-35 | a number held by a range goes to the matching place of the destination range |
| SeedAlmanac.MatchesMembers | 2023/day-05/src/main.rs:29-35 | a number is emitted for `n` exactly when it is the image of `n` under some range that holds `n` |
| SeedAlmanac.MatchesNone | 2023/day-05/src/main.rs:29-35 | no number is emitted by the ranges exactly when no range holds `n` |
| SeedAlmanac.ConvertOneMeans | 2023/day-05/src/main.rs:29-39 | a number no range holds is passed on unchanged; otherwise the numbers emitted are exactly its images |
| SeedAlmanac.ConvertOneHit | 2023/day-05/src/main.rs:29-39 | a number held by exactly one range is converted to its image under that range |
| SeedAlmanac.ConvertSnoc | 2023/day-05/src/main.rs:29-40 | converting one more number appends that number's conversion |
| SeedAlmanac.ConvertAppend | 2023/day-05/src/main.rs:29-40 | converting two lists one after the other is converting their concatenation |
| SeedAlmanac.DisjointMeans | 2023/day-05/src/main.rs:31 | the interval test for two ranges holds exactly when no number lies in both |
| SeedAlmanac.MatchesAtMostOne | 2023/day-05/src/main.rs:29-35 | with ranges that do not overlap a number has at most one image |
| SeedAlmanac.ConvertNeverShorter | 2023/day-05/src/main.rs:29-40 | every number gives at least one output number, so the list never shrinks |
| SeedAlmanac.ConvertSameLength | 2023/day-05/src/main.rs:29-40 | with ranges that do not overlap every number gives exactly one number |
| SeedAlmanac.ConvertFits | 2023/day-05/src/main.rs:31-32 | when every range end fits in `u64`, the converted numbers fit in `u64` too |
| SeedAlmanac.ConvertCategories | 2023/day-05/src/main.rs:24-43 | a category index past the maps is a panic; otherwise the result is the conversion of the numbers through that map |
| SeedAlmanac.ApplyMapsCompose | 2023/day-05/src/main.rs:45-53 | converting through two lists of maps in turn is converting through their concatenation |
| SeedAlmanac.ApplyMapsAppend | 2023/day-05/src/main.rs:45-53 | converting a concatenation of seed lists gives the concatenation of their locations |
| SeedAlmanac.ApplyMapsSameLength | 2023/day-05/src/main.rs:45-53 | with maps whose ranges do not overlap there is one location per seed |
| SeedAlmanac.FindLocations | 2023/day-05/src/main.rs:45-53 | the locations are the seeds converted by every map in order |
| SeedAlmanac.Minimum | 2023/day-05/src/main.rs:10 | `min` of an empty list panics; otherwise the result is an element no greater than any other |
| SeedAlmanac.MinimumSnoc | 2023/day-05/src/main.rs:10 | the least element of a list with one more element is the old least or the new one |
| SeedAlmanac.LowestLocation | 2023/day-05/src/main.rs:9-10 | part one panics without seeds and otherwise gives a location that is the least of all locations |
| SeedAlmanac.SeedPairs | 2023/day-05/src/main.rs:57-58 | the seeds are taken in pairs `(first, len)`, in order, ignoring an odd last seed |
| SeedAlmanac.Interval | 2023/day-05/src/main.rs:59 | `first..first + len` holds `len` numbers, the `k`-th being `first + k` |
| SeedAlmanac.RangeSeedsMembers | 2023/day-05/src/main.rs:57-59 | a seed is produced exactly when it lies in the interval of some pair |
| SeedAlmanac.AllSeedLocationsConvert | 2023/day-05/src/main.rs:60-66 | converting seed by seed gives the same numbers as converting the list of seeds at once |
| SeedAlmanac.AllSeedLocationsMembers | 2023/day-05/src/main.rs:60-66 | a location is produced exactly when it is a location of some seed of the list |
| SeedAlmanac.LowestLocationUsingRangeNone | 2023/day-05/src/main.rs:55-69 | part two panics exactly when no seed lies in any interval |
| SeedAlmanac.LowestLocationUsingRangeLeast | 2023/day-05/src/main.rs:55-69 | part two gives a location of some seed in an interval, and no location of such a seed is lower |
| SeedAlmanac.ConvertSeed | 2023/day-05/src/main.rs:60-66 | one seed is converted by every map in order |
| SeedAlmanac.TakeMinimum | 2023/day-05/src/main.rs:67 | folding more values into the least value so far gives the least value of all |
| SeedAlmanac.LowestOverInterval | 2023/day-05/src/main.rs:59-67 | folding the seeds of one interval into the least location so far gives the least location including that interval |
| SeedAlmanac.TakeSeed | 2023/day-05/src/main.rs:60-67 | folding one more seed's locations into the least location so far gives the least location including that seed |
| SeedAlmanac.FindLowestLocationUsingRange | 2023/day-05/src/main.rs:55-69 | the result is the least location over every seed of every interval, or a panic when there is none |
| SeedAlmanac.ParseU64s | 2023/day-05/src/main.rs:80-81 | each word parses as a `u64`, one number per word |
| SeedAlmanac.ParseRange | 2023/day-05/src/main.rs:89-95 | a range line has exactly three words, each a `u64` |
| SeedAlmanac.ParseRanges | 2023/day-05/src/main.rs:88-96 | a map has one range per line after the header, each within `u64` |
| SeedAlmanac.ParseBlock | 2023/day-05/src/main.rs:87-98 | a block parses to the ranges of its lines after the header |
| SeedAlmanac.ParseMaps | 2023/day-05/src/main.rs:84-99 | there is one map per block after the seed block, in order |
| SeedAlmanac.ParseAlmanac | 2023/day-05/src/main.rs:74-101 | an empty input panics; a parsed almanac has numbers within `u64` and one map per block after the first |
| SeedAlmanac.AlmanacFromStr | 2023/day-05/src/main.rs:74-101 | the loops over blocks and lines compute the parse described by `ParseAlmanac` |
| SeedAlmanac.ParseU64sEach | 2023/day-05/src/main.rs:80-81 | words that parse one by one to `u64` numbers parse together to the list of those numbers |
| SeedAlmanac.ParseU64sDecimals | 2023/day-05/src/main.rs:80-81 | decimal words of `u64` numbers parse back to those numbers |
| SeedAlmanac.SeedsLineWords | 2023/day-05/src/main.rs:76-81 | the seed line `seeds: ...` parses back to its seeds |
| SeedAlmanac.ParseRangeLine | 2023/day-05/src/main.rs:89-95 | a range written as three decimals parses back to that range |
| SeedAlmanac.ParseRangesEach | 2023/day-05/src/main.rs:88-96 | lines that parse one by one to ranges parse together to the list of those ranges |
| SeedAlmanac.ParseRangeLines | 2023/day-05/src/main.rs:88-96 | the lines of a map parse back to its ranges |
| SeedAlmanac.ParseBlockText | 2023/day-05/src/main.rs:87-98 | a block written under a header, with or without a final line feed, parses back to its ranges |
| SeedAlmanac.ParseMapsBlocks | 2023/day-05/src/main.rs:84-99 | blocks written from maps parse back to those maps |
| SeedAlmanac.ParseAlmanacText | 2023/day-05/src/main.rs:74-101 | an almanac written in the puzzle's format, with numbers within `u64`, parses back to itself |
| SeedAlmanacExamples.T1 | 2023/day-05/src/main.rs:136-143 | the first map sends seeds 79, 14, 55 and 13 to soils 81, 14, 57 and 13 |
| SeedAlmanacExamples.T2 | 2023/day-05/src/main.rs:145-150 | the example's locations are 82, 43, 86 and 35 |
| SeedAlmanacExamples.LowestExample | 2023/day-05/src/main.rs:145-150 | the example's lowest location is 35 |
| SeedAlmanacExamples.Parse | 2023/day-05/src/main.rs:113-131 | the example almanac, written with the puzzle's headers, parses to the almanac the test expects |
| BoatRace.GetDistance | 2023/day-06/src/main.rs:41-43 | the distance is `h * (time - h)`; it panics exactly when the holding time exceeds the race or `h * time` exceeds `u64` |
| BoatRace.DistanceSymmetric | 2023/day-06/src/main.rs:41-43 | holding for `h` or for `time - h` goes equally far |
| BoatRace.DistancesUpToMeans | 2023/day-06/src/main.rs:45-48 | the distances for `0..n` exist exactly when each one does, and entry `h` is the distance for `h` |
| BoatRace.AllDistancesFit | 2023/day-06/src/main.rs:45-48 | every holding time up to the race's length has a distance exactly when `time * time` fits in `u64` |
| BoatRace.GetAllDistances | 2023/day-06/src/main.rs:45-49 | there is one distance per holding time `0..=time`, entry `h` being `h * (time - h)`, and a panic exactly when `time * time` exceeds `u64` |
| BoatRace.WinnersMembers | 2023/day-06/src/main.rs:51-57 | an index is listed exactly when its distance beats the record |
| BoatRace.WinnersBelow | 2023/day-06/src/main.rs:51-57 | every listed index is a valid holding time |
| BoatRace.WinnersIncreasing | 2023/day-06/src/main.rs:51-57 | the listed indexes are strictly increasing, as `enumerate` visits them |
| BoatRace.GetWinningTimes | 2023/day-06/src/main.rs:51-58 | the winning times panic exactly when the distances do |
| BoatRace.WinningTimesMeans | 2023/day-06/src/main.rs:51-58 | a holding time is listed exactly when it is within the race and goes farther than the record |
| BoatRace.WinningTimesIncreasing | 2023/day-06/src/main.rs:51-58 | the winning times are in strictly increasing order |
| BoatRace.Span | 2023/day-06/src/main.rs:51-58 | an interval `a..b` holds `b - a` numbers, the `k`-th being `a + k` |
| BoatRace.WinnersSpan | 2023/day-06/src/main.rs:51-57 | when the indexes that beat the record form an interval, the listed indexes are that interval |
| BoatRace.WinsIff | 2023/day-06/src/main.rs:51-58 | when `lo` is the shortest winning time and at most half the race, a time wins exactly when it lies in `lo..=time - lo` |
| BoatRace.WinningTimesInterval | 2023/day-06/src/main.rs:51-58 | with `lo` as above, the winning times are `lo..=time - lo`, `time - 2 * lo + 1` of them |
| BoatRace.ReduceProduct | 2023/day-06/src/main.rs:85-87 | the reduce panics for no races and otherwise gives a number within `u64` |
| BoatRace.ReduceProductMeans | 2023/day-06/src/main.rs:85-87 | the reduce gives a result exactly when there are races and no partial product overflows, and the result is the product |
| BoatRace.CountsMeans | 2023/day-06/src/main.rs:84 | the counts exist exactly when every race's winning times do, and count `k` is the number of race `k`'s winning times |
| BoatRace.GetPartOne | 2023/day-06/src/main.rs:81-88 | part one panics when there are no races |
| BoatRace.PartOneMeans | 2023/day-06/src/main.rs:81-88 | part one is the product of the races' winning-time counts, and panics exactly when a count or a partial product does |
| BoatRace.ZipRaces | 2023/day-06/src/main.rs:35-38 | the zip gives as many races as the shorter column has words |
| BoatRace.ZipRacesAt | 2023/day-06/src/main.rs:30-37 | race `k` has the values of time word `k` and distance word `k` |
| BoatRace.ZipRacesNone | 2023/day-06/src/main.rs:30-38 | the parse panics exactly when the zip reaches a word that is not a `u64`, including the time just past the last distance |
| BoatRace.ParseJoined | 2023/day-06/src/main.rs:65-74 | a line's words after the label, run together, parse to one number within `u64` |
| BoatRace.JoinedAfterLabel | 2023/day-06/src/main.rs:69-71 | the words after a label, run together, are the characters after it that are not whitespace |
| BoatRace.RaceFromStr | 2023/day-06/src/main.rs:61-78 | the single race has a time and a distance within `u64` |
| BoatRace.ParseRacesText | 2023/day-06/src/main.rs:23-39 | races written in the puzzle's format, with numbers within `u64`, parse back to themselves |
| BoatRace.JoinedLine | 2023/day-06/src/main.rs:65-74 | a labelled line of numbers reads as the number whose digits are theirs run together, or panics when that exceeds `u64` |
| BoatRace.RaceFromRacesText | 2023/day-06/src/main.rs:61-78 | the races' text read as one race has the digits of the times and of the distances run together |
| BoatRaceExamples.Distance | 2023/day-06/src/main.rs:122-136 | the 7 ms race goes 0, 6, 10, 12, 12, 10, 6 and 0 mm for holding times 0 to 7 |
| BoatRaceExamples.AllDistances | 2023/day-06/src/main.rs:138-145 | the distances of the 7 ms race are `[0, 6, 10, 12, 12, 10, 6, 0]` |
| BoatRaceExamples.WinningTimes | 2023/day-06/src/main.rs:147-154 | the 7 ms race is won by holding 2, 3, 4 or 5 ms |
| BoatRaceExamples.Parse | 2023/day-06/src/main.rs:100-120 | the example's text parses to its three races |
| BoatRaceExamples.ExampleCounts | 2023/day-06/src/main.rs:156-161 | the example's races have 4, 8 and 9 winning times |
| BoatRaceExamples.PartOne | 2023/day-06/src/main.rs:156-161 | the example's margin is 288 |
| BoatRaceExamples.JoinedExample | 2023/day-06/src/main.rs:163-173 | the example's digits run together are 71530 and 940200 |
| BoatRaceExamples.ParseSingleRace | 2023/day-06/src/main.rs:163-173 | the example read as one race is 71530 ms with record 940200 mm |
| BoatRaceExamples.JoinedRaceWinners | 2023/day-06/src/main.rs:175-179 | that race has 71503 winning times |
| BoatRaceExamples.PartTwoExample | 2023/day-06/src/main.rs:175-179 | part two of the example is 71503 |
| Orders.IncreasingByChain | 2023/day-07/src/main.rs:120-138 | under a transitive relation, a sequence whose neighbours are related is increasing |
| Orders.IncreasingUnique | 2023/day-07/src/main.rs:120-138 | under a strict order, two increasing sequences with the same elements are equal |
| RockPaperScissors.HandValue | 2022/day-02/src/main.rs:4-8 | a hand is worth 1, 2 or 3 points |
| RockPaperScissors.OutcomeValue | 2022/day-02/src/main.rs:29-33 | an outcome is worth 0, 3 or 6 points |
| RockPaperScissors.Beats | 2022/day-02/src/main.rs:11-17 | no hand beats itself |
| RockPaperScissors.Beaten | 2022/day-02/src/main.rs:19-25 | no hand is beaten by itself |
| RockPaperScissors.BeatsBeatenInverse | 2022/day-02/src/main.rs:11-25 | `beaten` undoes `beats` and the other way round, and the two never give the same hand |
| RockPaperScissors.BeatsInjective | 2022/day-02/src/main.rs:11-17 | two different hands beat two different hands |
| RockPaperScissors.Trichotomy | 2022/day-02/src/main.rs:11-17 | of two hands, exactly one of: they are equal, the first beats the second, the second beats the first |
| RockPaperScissors.Play | 2022/day-02/src/main.rs:73-81 | you win exactly when your hand beats the opponent's, lose exactly when the opponent's beats yours, and draw exactly when the hands are equal |
| RockPaperScissors.Flip | 2022/day-02/src/main.rs:73-81 | swapping the sides of an outcome keeps a draw and changes a win or a loss |
| RockPaperScissors.PlaySwapped | 2022/day-02/src/main.rs:73-81 | swapping the two hands swaps the outcome |
| RockPaperScissors.Score | 2022/day-02/src/main.rs:133-137 | a round scores 1 to 9 points, and the score determines your hand modulo 3 |
| RockPaperScissors.ScoreDetermines | 2022/day-02/src/main.rs:133-137 | two games with the same score have the same hand and outcome |
| RockPaperScissors.OpponentHand | 2022/day-02/src/main.rs:51-56 | exactly the letters A, B and C name an opponent's hand |
| RockPaperScissors.YourHand | 2022/day-02/src/main.rs:58-63 | exactly the letters X, Y and Z name your hand |
| RockPaperScissors.ExpectedOutcome | 2022/day-02/src/main.rs:105-110 | exactly the letters X, Y and Z name an outcome |
| RockPaperScissors.GameFromString | 2022/day-02/src/main.rs:42-71 | a line is a game exactly when it has two words, an opponent letter and a hand letter, and the game holds those hands |
| RockPaperScissors.Game2FromString | 2022/day-02/src/main.rs:90-113 | a line with fewer than two words panics; otherwise it is a round exactly when its first two words are an opponent letter and an outcome letter, and the error names the opponent when that letter is wrong |
| RockPaperScissors.ChosenHand | 2022/day-02/src/main.rs:116-120 | the chosen hand reaches the expected outcome against the opponent |
| RockPaperScissors.ChosenHandUnique | 2022/day-02/src/main.rs:116-120 | the chosen hand is the only one that reaches the expected outcome |
| RockPaperScissors.GetPoints | 2022/day-02/src/main.rs:115-122 | part two scores 1 to 9 points, the part-one score of the round played with the chosen hand |
| RockPaperScissors.GetPointsOfOutcome | 2022/day-02/src/main.rs:115-122 | any hand that reaches the expected outcome gives the points part two counts |
| RockPaperScissors.Games | 2022/day-02/src/main.rs:131-132 | the games of the lines that parse are at most as many as the lines |
| RockPaperScissors.GamesEach | 2022/day-02/src/main.rs:131-132 | when every line parses, the games are the parsed lines in order |
| RockPaperScissors.ScoreSum | 2022/day-02/src/main.rs:133-138 | the part-one total is between one and nine points per game |
| RockPaperScissors.Rounds | 2022/day-02/src/main.rs:142-143 | the rounds of the lines that parse are at most as many as the lines |
| RockPaperScissors.RoundsDefined | 2022/day-02/src/main.rs:142-143 | part two has a total exactly when every line has at least two words |
| RockPaperScissors.RoundsEach | 2022/day-02/src/main.rs:142-143 | when every line parses, the rounds are the parsed lines in order |
| RockPaperScissors.PointsSum | 2022/day-02/src/main.rs:144-145 | the part-two total is between one and nine points per round |
| RockPaperScissors.PartOne | 2022/day-02/src/main.rs:131-138 | the part-one total of an input is at most nine points per line |
| RockPaperScissors.PartTwo | 2022/day-02/src/main.rs:142-145 | the part-two total of an input, when no line panics, is at most nine points per line |
| RockPaperScissors.LettersAreWords | 2022/day-02/src/main.rs:43-45 | two letters with a space between split into those two words |
| RockPaperScissors.GameRoundTrip | 2022/day-02/src/main.rs:42-71 | a game written as its two letters parses back to itself |
| RockPaperScissors.Game2RoundTrip | 2022/day-02/src/main.rs:90-113 | a round written as its two letters parses back to itself |
| RockPaperScissors.PartsAgree | 2022/day-02/src/main.rs:115-122 | part two, asked for the outcome a part-one game has, scores what part one scores |
| RockPaperScissors.LetterLine | 2022/day-02/src/main.rs:42-113 | a line of two letters parses as the game and as the round those letters name |
| RockPaperScissors.ExampleGameLines | 2022/day-02/src/main.rs:42-71 | the example lines A Y, B X and C Z are the games rock-paper, paper-rock and scissors-scissors |
| RockPaperScissors.ExampleRoundLines | 2022/day-02/src/main.rs:90-113 | the example lines are the rounds rock-draw, paper-loss and scissors-win |
| RockPaperScissors.Games3 | 2022/day-02/src/main.rs:131-132 | three lines that parse give their three games |
| RockPaperScissors.Rounds3 | 2022/day-02/src/main.rs:142-143 | three lines that parse give their three rounds |
| RockPaperScissors.ExampleGames | 2022/day-02/src/main.rs:131-132 | the example guide gives its three games |
| RockPaperScissors.ExamplePartOne | 2022/day-02/src/main.rs:131-138 | the example scores 15 in part one |
| RockPaperScissors.ExampleRounds | 2022/day-02/src/main.rs:142-143 | the example guide gives its three rounds |
| RockPaperScissors.ExamplePartTwo | 2022/day-02/src/main.rs:142-145 | the example scores 12 in part two |
| Trebuchet.WordsShape | 2023/day-01/src/main.rs:19-31 | each name has 3 to 5 letters, its replacement is the name with the middle letter changed to the digit, and all its letters are alphabetic |
| Trebuchet.WordsBigrams | 2023/day-01/src/main.rs:19-31 | no name's first two letters appear inside a name, names differ in their first two letters, and no name ends with its first letter |
| Trebuchet.OccursChars | 2023/day-01/src/main.rs:33-36 | an occurrence of a word puts its letters in the line |
| Trebuchet.OccursChar | 2023/day-01/src/main.rs:33-36 | an occurrence of a word puts each of its letters in the line |
| Trebuchet.Overlap | 2023/day-01/src/main.rs:19-31 | two occurrences of names share at most one letter, and two occurrences of the same name share none |
| Trebuchet.MidUncovered | 2023/day-01/src/main.rs:19-31 | an occurrence of one name never covers the middle letter of an occurrence of another |
| Trebuchet.Replace | 2023/day-01/src/main.rs:35-37 | replacing a word by one of the same length keeps the length of the line |
| Trebuchet.OccursShift | 2023/day-01/src/main.rs:35-37 | an occurrence in a suffix is an occurrence in the line, shifted |
| Trebuchet.SpacedSuffix | 2023/day-01/src/main.rs:35-37 | when occurrences of a word never overlap in a line, they do not in a suffix either |
| Trebuchet.ReplaceMatch | 2023/day-01/src/main.rs:35-37 | replacing at a leading occurrence marks it and keeps the rest as the recursive replacement marks it |
| Trebuchet.ReplaceSkip | 2023/day-01/src/main.rs:35-37 | a leading character that starts no occurrence is kept |
| Trebuchet.ReplaceAt | 2023/day-01/src/main.rs:35-37 | when occurrences never overlap, replacing a word by itself with one letter changed changes exactly that letter of every occurrence |
| Trebuchet.Marker | 2023/day-01/src/main.rs:33-37 | the name found at a position is one of the names replaced so far with its middle letter there, and none is found when no such name exists |
| Trebuchet.MarkerIs | 2023/day-01/src/main.rs:33-37 | a replaced name with its middle letter at a position is the name found there |
| Trebuchet.OccursSame | 2023/day-01/src/main.rs:33-37 | replacing other names leaves the occurrences of a name where they were |
| Trebuchet.ReplaceStep | 2023/day-01/src/main.rs:33-37 | one more replacement marks the middle letters of the new name and keeps every earlier mark |
| Trebuchet.AllWords | 2023/day-01/src/main.rs:19-31 | every entry of the table has its index in the list of all entries |
| Trebuchet.Marked | 2023/day-01/src/main.rs:33-37 | the fully replaced line is as long as the line |
| Trebuchet.MarkedName | 2023/day-01/src/main.rs:33-37 | where a name has its middle letter, the replaced line holds that name's digit |
| Trebuchet.MarkedPlain | 2023/day-01/src/main.rs:33-37 | where no name has its middle letter, the replaced line keeps the original character |
| Trebuchet.OrderIrrelevant | 2023/day-01/src/main.rs:33-37 | replacing the names in any order of the map gives the same character at every position |
| Trebuchet.FirstDigitIndex | 2023/day-01/src/main.rs:5-9 | the index found holds a digit and no digit comes before it |
| Trebuchet.LastDigitIndex | 2023/day-01/src/main.rs:10-15 | the index found holds a digit and no digit comes after it |
| Trebuchet.FirstDigit | 2023/day-01/src/main.rs:5-9 | the first digit read, or 0 when there is none, is at most 9 |
| Trebuchet.LastDigit | 2023/day-01/src/main.rs:10-15 | the last digit read, or 0 when there is none, is at most 9 |
| Trebuchet.Calibration | 2023/day-01/src/main.rs:4-17 | the calibration is at most 99, so the conversion to `u8` never fails |
| Trebuchet.CalibrationDigits | 2023/day-01/src/main.rs:4-17 | the calibration is ten times the first digit plus the last digit |
| Trebuchet.CalibrationSingleDigit | 2023/day-01/src/main.rs:4-17 | a line with one digit has eleven times that digit |
| Trebuchet.CalibrationNoDigit | 2023/day-01/src/main.rs:4-17 | a line without digits has 0 |
| Trebuchet.FancyValue | 2023/day-01/src/main.rs:33-51 | the part-two value of a line is at most 99 |
| Trebuchet.FancyCalibration | 2023/day-01/src/main.rs:33-51 | the replacement loop in any iteration order ends with the part-two value of the line |
| Trebuchet.CalibrationSum | 2023/day-01/src/main.rs:55-59 | the part-one total is at most 99 per line |
| Trebuchet.FancySum | 2023/day-01/src/main.rs:61-65 | the part-two total is at most 99 per line |
| Trebuchet.SumsAppend | 2023/day-01/src/main.rs:55-65 | both totals add up over the lines of two inputs |
| Trebuchet.PlainLineAgrees | 2023/day-01/src/main.rs:33-51 | a line where no name occurs has the same value in both parts |
| Trebuchet.PartOne | 2023/day-01/src/main.rs:53-60 | the part-one answer is at most 99 per line of the input |
| Trebuchet.PartTwo | 2023/day-01/src/main.rs:61-66 | the part-two answer is at most 99 per line of the input |
| TrebuchetExamples.CandidatesCover | 2023/day-01/src/main.rs:19-31 | every name is listed under its own middle letter |
| TrebuchetExamples.PlainAt | 2023/day-01/src/main.rs:33-37 | a letter that is the middle of no name occurrence is not a digit after the replacements |
| TrebuchetExamples.PlainLetterAt | 2023/day-01/src/main.rs:33-37 | a letter that is the middle of no name is not a digit after the replacements |
| TrebuchetExamples.DigitAt | 2023/day-01/src/main.rs:33-37 | a digit of the line is kept by the replacements |
| TrebuchetExamples.ShownDigit | 2023/day-01/src/main.rs:33-37 | a digit, or the middle letter of its name, is that digit after the replacements |
| TrebuchetExamples.FancyFrom | 2023/day-01/src/main.rs:33-51 | the part-two value is given by where the first and last digits show up |
| TrebuchetExamples.PartOneFirst | 2023/day-01/src/main.rs:75-78 | `1abc2` has calibration 12 |
| TrebuchetExamples.PartOneSecond | 2023/day-01/src/main.rs:81-84 | `pqr3stu8vwx` has calibration 38 |
| TrebuchetExamples.PartOneThird | 2023/day-01/src/main.rs:87-90 | `a1b2c3d4e5f` has calibration 15 |
| TrebuchetExamples.PartOneFourth | 2023/day-01/src/main.rs:93-96 | `treb7uchet` has calibration 77 |
| TrebuchetExamples.TwoOneNine | 2023/day-01/src/main.rs:103-106 | `two1nine` has part-two value 29 |
| TrebuchetExamples.EightwothreeHead | 2023/day-01/src/main.rs:109-112 | the first two letters of `eightwothree` stay letters |
| TrebuchetExamples.Eightwothree | 2023/day-01/src/main.rs:109-112 | `eightwothree` has part-two value 83 |
| TrebuchetExamples.AbcHead | 2023/day-01/src/main.rs:115-118 | the first four letters of `abcone2threexyz` stay letters |
| TrebuchetExamples.AbcTail | 2023/day-01/src/main.rs:115-118 | the last five letters of `abcone2threexyz` stay letters |
| TrebuchetExamples.AbcOneTwoThree | 2023/day-01/src/main.rs:115-118 | `abcone2threexyz` has part-two value 13 |
| TrebuchetExamples.XTwoOneThreeFour | 2023/day-01/src/main.rs:121-124 | `xtwone3four` has part-two value 24 |
| TrebuchetExamples.FourNineEightSevenTwo | 2023/day-01/src/main.rs:127-130 | `4nineeightseven2` has part-two value 42 |
| TrebuchetExamples.ZOneEightTwoThreeFour | 2023/day-01/src/main.rs:133-136 | `zoneight234` has part-two value 14 |
| TrebuchetExamples.SevenSixteen | 2023/day-01/src/main.rs:139-142 | `7pqrstsixteen` has part-two value 76 |
| TrebuchetExamples.PartOneExample | 2023/day-01/src/main.rs:55-59 | the four part-one test lines add up to 142 |
| TrebuchetExamples.PartTwoExample | 2023/day-01/src/main.rs:61-65 | the seven part-two test lines add up to 281 |
| RopeBridge.IsSame | 2022/day-09/src/main.rs:14-18 | the knots coincide exactly when they are the same point |
| RopeBridge.IsAdjacent | 2022/day-09/src/main.rs:20-26 | the knots are adjacent exactly when their Chebyshev distance is one |
| RopeBridge.ShouldMove | 2022/day-09/src/main.rs:28-30 | a knot must move exactly when it is at Chebyshev distance two or more |
| RopeBridge.MoveKnot | 2022/day-09/src/main.rs:32-51 | a touching tail stays; a moving tail moves at most one cell per axis and ends one Chebyshev step closer to the head |
| RopeBridge.MoveKnotTouches | 2022/day-09/src/main.rs:32-51 | a tail at most two cells from the head along each axis touches it after moving |
| RopeBridge.MoveKnotApart | 2022/day-09/src/main.rs:28-51 | a knot that must move never lands on the knot it follows |
| RopeBridge.MoveHead | 2022/day-09/src/main.rs:84-89 | the head moves one cell, along the row coordinate for U and D and along the column coordinate for L and R |
| RopeBridge.Follow | 2022/day-09/src/main.rs:95-97 | a knot moves at most one cell per axis, and touches its leader afterwards when it was within two cells of it |
| RopeBridge.FollowChainAt | 2022/day-09/src/main.rs:94-99 | each knot of the inner loop follows the knot just before it, at that knot's new position |
| RopeBridge.StepAt | 2022/day-09/src/main.rs:83-99 | after a unit step, knot i is where following knot i - 1 takes it |
| RopeBridge.FollowChainTaut | 2022/day-09/src/main.rs:94-99 | a taut rope whose leader moves one cell stays taut, and each knot moves at most one cell per axis |
| RopeBridge.StepTaut | 2022/day-09/src/main.rs:83-99 | a unit step keeps a taut rope taut and moves each knot at most one cell per axis |
| RopeBridge.Initial | 2022/day-09/src/main.rs:72-79 | the ten knots start at the origin, the origin visited |
| RopeBridge.StepState | 2022/day-09/src/main.rs:83-104 | a unit step keeps the number of knots and adds the last knot's new cell to the visited set |
| RopeBridge.RunSteps | 2022/day-09/src/main.rs:82-105 | the steps of a motion keep the number of knots and never forget a visited cell |
| RopeBridge.Run | 2022/day-09/src/main.rs:81-106 | the motions keep the number of knots and never forget a visited cell |
| RopeBridge.RunStepsTaut | 2022/day-09/src/main.rs:82-105 | the steps of a motion keep a taut rope taut |
| RopeBridge.RunStepsCount | 2022/day-09/src/main.rs:82-105 | after a step the last knot's cell is recorded, and each step adds at most one cell |
| RopeBridge.RunFacts | 2022/day-09/src/main.rs:81-106 | a run keeps the rope taut and the last knot recorded, adding at most one cell per unit step |
| RopeBridge.Visited | 2022/day-09/src/main.rs:72-106 | the origin is always among the visited cells |
| RopeBridge.VisitedBound | 2022/day-09/src/main.rs:72-106 | the visited cells number between one and one more than the total steps, and the final rope is taut |
| RopeBridge.FollowInPlace | 2022/day-09/src/main.rs:94-97 | the knot at i moves to where following the leader takes it, and no other knot changes |
| RopeBridge.StepRope | 2022/day-09/src/main.rs:83-99 | the array after the inner loop is the rope after one unit step |
| RopeBridge.MoveRope | 2022/day-09/src/main.rs:82-105 | the array and set after one motion are the state after its unit steps |
| RopeBridge.CountVisited | 2022/day-09/src/main.rs:72-108 | the simulation returns the number of distinct cells the last knot visits |
| RopeBridge.ParseDirection | 2022/day-09/src/main.rs:62-68 | exactly U, D, L and R are directions; any other word panics |
| RopeBridge.ParseMotion | 2022/day-09/src/main.rs:59-69 | a line is a motion exactly when it has at least two words, the first a direction and the second a `u8` count, and the motion holds those two; further words are ignored |
| RopeBridge.ParseMotions | 2022/day-09/src/main.rs:57-70 | the motions of the non-empty lines are at most as many as the lines, each with a `u8` count |
| RopeBridge.Answer | 2022/day-09/src/main.rs:53-108 | an input that parses has at least one visited cell |
| RopeBridge.AnswerBound | 2022/day-09/src/main.rs:53-108 | the answer is between one and one more than the total steps of the motions |
| RopeBridge.MotionRoundTrip | 2022/day-09/src/main.rs:59-69 | a motion with a `u8` count written as in the input parses back to itself |
| RopeBridge.MotionsRoundTrip | 2022/day-09/src/main.rs:57-70 | motions written one per line parse back to themselves |
| RegolithReservoir.Set | 2022/day-14/src/main.rs:60 | setting a cell changes that cell to the new content and no other, and keeps the size |
| RegolithReservoir.MaxOf | 2022/day-14/src/main.rs:30-31 | the maximum of a non-empty list is one of its elements and no element exceeds it |
| RegolithReservoir.BuildMatrix | 2022/day-14/src/main.rs:24-34 | a matrix exists exactly when there is a point and both largest numbers are below `usize::MAX`; it is all `Void`, every point lies inside it, and its last row and last column each hold a point |
| RegolithReservoir.RockMatrixGet | 2022/day-14/src/main.rs:58-61 | after the rock loop a cell is rock exactly when it is a listed point with column and row swapped, and otherwise holds what it held |
| RegolithReservoir.PlaceRocks | 2022/day-14/src/main.rs:58-61 | the rock loop sets the listed cells to rock, one point after another |
| RegolithReservoir.Target | 2022/day-14/src/main.rs:92-95 | a move takes the grain exactly one row down and at most one column aside |
| RegolithReservoir.NextMove | 2022/day-14/src/main.rs:81-89 | a grain that moves goes to a `Void` cell, to the left only away from column 0 |
| RegolithReservoir.MoveOrder | 2022/day-14/src/main.rs:81-89 | straight down is taken whenever it is `Void`, then down-left, then down-right, and the grain rests only when all three are taken; column 0 with the cell below taken underflows |
| RegolithReservoir.FreeShrinks | 2022/day-14/src/main.rs:96-101 | a grain at rest away from the hole takes exactly one free cell, its own |
| RegolithReservoir.LeavesRest | 2022/day-14/src/main.rs:96-101 | the effect of the rest of the loop after one more grain rests is the effect from before it, counting that grain |
| RegolithReservoir.FinishFacts | 2022/day-14/src/main.rs:65-103 | when the loop ends, the matrix keeps its size, the count is the number of free cells that turned to sand, every other cell is unchanged, and the loop ended at the last row or with the hole blocked |
| RegolithReservoir.FinishMove | 2022/day-14/src/main.rs:92-95 | a grain that moves goes on from its target cell with the same count |
| RegolithReservoir.FinishRest | 2022/day-14/src/main.rs:96-101 | a grain at rest away from the hole turns its cell to sand, adds one to the count and the next grain starts at the hole |
| RegolithReservoir.FinishStops | 2022/day-14/src/main.rs:79 | the loop stops at the last row and when a grain rests at the hole, and panics on an underflow |
| RegolithReservoir.FallFrom | 2022/day-14/src/main.rs:77-95 | one grain's fall starts where it enters, passes at most one cell per row, and ends at the last row exactly when it lands at the bottom, otherwise where it rests or underflows |
| RegolithReservoir.FallMoves | 2022/day-14/src/main.rs:81-95 | each cell of a fall is the target of the move chosen in the cell before it, one row further down |
| RegolithReservoir.FallRows | 2022/day-14/src/main.rs:92-95 | the i-th cell of a fall is i rows below where the grain entered |
| RegolithReservoir.FallStep | 2022/day-14/src/main.rs:92-95 | a grain that moves lands where a grain entering at its target cell lands |
| RegolithReservoir.FinishStill | 2022/day-14/src/main.rs:79-101 | a grain that does not move ends the loop, panics, or rests and lets the next grain start |
| RegolithReservoir.FinishFall | 2022/day-14/src/main.rs:68-103 | the loop is a sequence of falls: what follows is decided by where and how the current grain's fall ends |
| RegolithReservoir.ChooseMove | 2022/day-14/src/main.rs:81-89 | the movement is the one the decision table gives |
| RegolithReservoir.Advance | 2022/day-14/src/main.rs:92-102 | moving or resting keeps the outcome of the loop and makes progress: fewer free cells, or the same cells and a lower grain |
| RegolithReservoir.Pour | 2022/day-14/src/main.rs:65-103 | the game loop returns the count and the matrix at which the loop ends, and panics exactly when the loop does |
| RegolithReservoir.ParsePoint | 2022/day-14/src/main.rs:43-48 | a parsed point has two numbers that fit a `usize` |
| RegolithReservoir.ParsePoints | 2022/day-14/src/main.rs:42-50 | a parsed path has one point per piece |
| RegolithReservoir.ParsePath | 2022/day-14/src/main.rs:41 | a parsed line has one point per piece between the arrows, and at least one |
| RegolithReservoir.ParseScan | 2022/day-14/src/main.rs:39-52 | a parsed scan has one path per line, each the parse of that line |
| RegolithReservoir.ParseLinesEach | 2022/day-14/src/main.rs:39-52 | each parsed path is the parse of its line |
| RegolithReservoir.AnswerBound | 2022/day-14/src/main.rs:96-101 | the sand count is at most the number of free cells of the rock matrix |
| RegolithReservoir.Simulate | 2022/day-14/src/main.rs:36-105 | `main` gives the count of the loop on the rock matrix of the parsed scan, or panics exactly where the model has no answer |
| RegolithReservoir.PointRoundTrip | 2022/day-14/src/main.rs:43-48 | a point of `usize` numbers, written with an optional space around it, parses back to itself |
| RegolithReservoir.PathRoundTrip | 2022/day-14/src/main.rs:41-50 | a path written with ` -> ` between its points parses back to itself |
| RegolithReservoir.LinesRoundTrip | 2022/day-14/src/main.rs:39-52 | written paths on separate lines parse back to those paths |
| RegolithReservoir.ScanRoundTrip | 2022/day-14/src/main.rs:39-52 | a scan written one path per line parses back to the same paths |
| SupplyStacks.MoveBlock | 2022/day-05/src/main.rs:92-97 | between two different stacks, `qty` single moves take the top `qty` crates of `from` and put them on `to` in reversed order, and leave every other stack as it was |
| SupplyStacks.MovePanics | 2022/day-05/src/main.rs:92-97 | between two different stacks, the moves go through exactly when both keys exist and `from` holds at least `qty` crates |
| SupplyStacks.MoveSelf | 2022/day-05/src/main.rs:92-97 | moving crates from a stack onto itself leaves the table as it was, and panics only on a missing or empty stack |
| SupplyStacks.MoveOneTotal | 2022/day-05/src/main.rs:93-96 | one pop and push between stacks keyed `1..n` keeps the number of crates on them |
| SupplyStacks.MoveTotal | 2022/day-05/src/main.rs:92-97 | a whole procedure between stacks keyed `1..n` keeps the number of crates on them |
| SupplyStacks.MoveKeys | 2022/day-05/src/main.rs:92-97 | the moves neither add nor remove a stack |
| SupplyStacks.ApplyAllKeys | 2022/day-05/src/main.rs:86-98 | carrying out all procedures neither adds nor removes a stack |
| SupplyStacks.ApplyAllAppend | 2022/day-05/src/main.rs:86-98 | the procedures are carried out one after another, in input order |
| SupplyStacks.NoneStaysNone | 2022/day-05/src/main.rs:92-97 | once a single move panics, the whole procedure panics |
| SupplyStacks.ApplyAllNone | 2022/day-05/src/main.rs:86-98 | once a procedure panics, the whole rearrangement panics, whatever follows it |
| SupplyStacks.TopsUpTo | 2022/day-05/src/main.rs:100-102 | the output has one character per key `1..n`, the last crate of that stack, and panics exactly when a key is missing or its stack is empty |
| SupplyStacks.Crane.constructor | 2022/day-05/src/main.rs:84 | the crane starts with the table `get_table` built |
| SupplyStacks.Crane.MoveCrate | 2022/day-05/src/main.rs:93-96 | pops the top crate of `from` and pushes it onto `to`, failing where `unwrap` panics, as the move function on the old table says |
| SupplyStacks.Crane.Carry | 2022/day-05/src/main.rs:92-97 | the `qty` loop leaves the table the moves of the procedure give, or fails where one of them panics |
| SupplyStacks.Crane.CarryAll | 2022/day-05/src/main.rs:86-98 | the `for_each` leaves the table all the procedures give in order, or fails where one of them panics |
| SupplyStacks.FindColumnLine | 2022/day-05/src/main.rs:78-82 | the index of the first line that starts with ` 1`, and no index when there is none |
| SupplyStacks.DigitColumnsFrom | 2022/day-05/src/main.rs:4-18 | the positions of exactly the digits of the line, in increasing order |
| SupplyStacks.StackOf | 2022/day-05/src/main.rs:35-42 | a column reads as a stack of letters no higher than the drawing, and panics exactly when some line is too short for the column |
| SupplyStacks.StacksOf | 2022/day-05/src/main.rs:31-45 | the table has exactly the keys `1..` the number of columns, key `k` holding the stack of column `k`, and panics exactly when one column does |
| SupplyStacks.StacksOfNone | 2022/day-05/src/main.rs:31-45 | a column that panics makes the whole table panic |
| SupplyStacks.BuildTable | 2022/day-05/src/main.rs:29-47 | the insertion loop builds the table that the column function describes |
| SupplyStacks.NumbersBound | 2022/day-05/src/main.rs:61-62 | every number kept from a line fits in `u32` |
| SupplyStacks.ParseProcedure | 2022/day-05/src/main.rs:58-70 | a line gives a procedure exactly when it holds at least three `u32` words, and its numbers fit in `u32` |
| SupplyStacks.Solve | 2022/day-05/src/main.rs:78-102 | `main` gives the answer of the whole puzzle: the tops after the procedures, or a panic |
| SupplyStacks.StackOfDrawn | 2022/day-05/src/main.rs:35-42 | a column that draws a stack of letters, top crate highest, reads back as that stack |
| SupplyStacks.TableRoundTrip | 2022/day-05/src/main.rs:3-48 | the drawing of stacks of letters above their numbering line reads back as the table of those stacks |
| SupplyStacks.ProcedureRoundTrip | 2022/day-05/src/main.rs:58-70 | a procedure with `u32` numbers, written as `move q from f to t`, parses back to itself |
| SupplyStacks.ProceduresRoundTrip | 2022/day-05/src/main.rs:89-90 | written procedures, one per line, parse back to themselves |
| SupplyStacks.InputLines | 2022/day-05/src/main.rs:78-79 | the lines of a written input are the drawing, the numbering line, the empty line and the procedures |
| SupplyStacks.InputRoundTrip | 2022/day-05/src/main.rs:73-102 | on a written input, the answer is the tops of the table that the procedures leave from the drawn stacks, or a panic exactly when they panic |
| MirageMaintenance.Differences | 2023/day-09/src/main.rs:22-28 | a history of `n >= 1` readings has `n - 1` differences, and the empty history has none |
| MirageMaintenance.Table | 2023/day-09/src/main.rs:19-30 | the table starts with the history and ends with an all-zero row |
| MirageMaintenance.TableRow | 2023/day-09/src/main.rs:21-29 | every row before the last is not all zeros, and the next row holds its differences |
| MirageMaintenance.TableShrinks | 2023/day-09/src/main.rs:22-28 | each row is one reading shorter than the row above it |
| MirageMaintenance.LastSum | 2023/day-09/src/main.rs:32-34 | the fold gives a result exactly when no row is empty, where `last().unwrap()` would panic |
| MirageMaintenance.FindNextPanics | 2023/day-09/src/main.rs:18-35 | `find_next` panics exactly when the table ends in an empty row |
| MirageMaintenance.LastSumFront | 2023/day-09/src/main.rs:32-34 | the sum of the last readings is the first row's last reading plus the sum over the rows below |
| MirageMaintenance.NextExtends | 2023/day-09/src/main.rs:18-35 | the next value is the last reading plus the next value of the differences, so appending it appends that value to the differences; an all-zero history goes on with 0 |
| MirageMaintenance.FromDifferences | 2023/day-09/src/main.rs:18-35 | conversely, a history that is not all zeros goes on with its last reading plus the next value of its differences |
| MirageMaintenance.DifferencesAppend | 2023/day-09/src/main.rs:22-28 | appending a reading appends its difference from the last reading |
| MirageMaintenance.ConstantNext | 2023/day-09/src/main.rs:18-35 | a constant history of at least two readings goes on with the same reading |
| MirageMaintenance.ArithmeticNext | 2023/day-09/src/main.rs:18-35 | a history of at least three readings whose neighbours all differ by `d` goes on with its last reading plus `d` |
| MirageMaintenance.FindNextLoop | 2023/day-09/src/main.rs:18-35 | the `while` loop pushes exactly the rows of the table, and the result is the next value of the history, or a panic |
| MirageMaintenance.ParseWords | 2023/day-09/src/main.rs:40-46 | every word is parsed as an `i64`, in order, and the line panics exactly when one word does not parse |
| MirageMaintenance.SignedDecimal | 2023/day-09/src/main.rs:43 | a reading is written as a single word |
| MirageMaintenance.ParseHistoryText | 2023/day-09/src/main.rs:40-46 | a history of `i64` readings written with single spaces parses back to itself |
| MirageMaintenance.SumNextFront | 2023/day-09/src/main.rs:5-10 | a line whose history goes on with `v` adds `v` to the sum of the rest of the report |
| MirageMaintenance.SumNextThree | 2023/day-09/src/main.rs:5-10 | a report of three lines sums their three next values |
| MirageMaintenance.ExampleFirst | 2023/day-09/src/main.rs:72 | the first example history goes on with 18 |
| MirageMaintenance.ExampleSecond | 2023/day-09/src/main.rs:73 | the second example history goes on with 28 |
| MirageMaintenance.ExampleThird | 2023/day-09/src/main.rs:74 | the third example history goes on with 68 |
| MirageMaintenance.ExampleReport | 2023/day-09/src/main.rs:79-83 | the example report parses into the three histories of the `parse` test, and their next values sum to 114 |
| DistressSignal.Zip | 2022/day-13/src/main.rs:20-23 | the zipped list pairs the elements at each index and is as long as the shorter list |
| DistressSignal.Process | 2022/day-13/src/main.rs:10-49 | `process_packets` comes out true only when some top-level pair is two numbers with the left one larger |
| DistressSignal.Nested | 2022/day-13/src/main.rs:19-44 | a nested comparison comes out true only when some top-level pair is two numbers with the left one larger |
| DistressSignal.FirstUnequal | 2022/day-13/src/main.rs:13-17 | equal `i64` numbers are skipped, and the first unequal pair of numbers decides by whether the left one is larger |
| DistressSignal.AllEqualNumbers | 2022/day-13/src/main.rs:10-18 | a list of equal number pairs, and the empty list, come out false |
| DistressSignal.ZipTruncates | 2022/day-13/src/main.rs:7 | the elements of the longer list beyond the shorter one play no part |
| DistressSignal.NestedFalse | 2022/day-13/src/main.rs:24-25 | a nested comparison that comes out false makes the whole walk false, whatever follows |
| DistressSignal.NestedTrue | 2022/day-13/src/main.rs:24-26 | a nested comparison that comes out true does not decide, and the walk goes on with the next pair |
| DistressSignal.NumberWrapped | 2022/day-13/src/main.rs:27-44 | a number facing a list, on either side, compares as the one-element list holding it |
| DistressSignal.OtherPanics | 2022/day-13/src/main.rs:45 | a value that is neither a number nor an array panics once the walk reaches it |
| DistressSignal.NoPanic | 2022/day-13/src/main.rs:10-49 | the walk never panics on packets made of `i64` numbers and arrays |
| DistressSignal.SelfNotOrdered | 2022/day-13/src/main.rs:10-49 | a packet paired with itself comes out false |
| DistressSignal.SelfItems | 2022/day-13/src/main.rs:19-26 | a list zipped with itself comes out false |
| DistressSignal.NonEmpty | 2022/day-13/src/main.rs:58 | the filter keeps exactly the non-empty lines |
| DistressSignal.PacketLines | 2022/day-13/src/main.rs:54-58 | one group of lines for every piece of the input between blank lines |
| DistressSignal.Pairs | 2022/day-13/src/main.rs:61-63 | every group gives the pair of its first two packets, and `main` panics exactly when a group holds fewer than two |
| DistressSignal.ParseGroup | 2022/day-13/src/main.rs:59 | every line is parsed, and the group panics exactly when one line does not parse |
| DistressSignal.ParseGroups | 2022/day-13/src/main.rs:54-65 | every group is parsed, and the input panics exactly when one group does |
| DistressSignal.OrderdPairs | 2022/day-13/src/main.rs:51-67 | `main` decides on the first two packets of every group, and panics when a group holds fewer |
| RedNosedReports.Row.constructor | 2024/day-02/src/main.c:7-10 | a row holds its levels at the front of a fresh buffer of ten entries |
| RedNosedReports.VariationOf | 2024/day-02/src/main.c:61 | a step is an increase exactly when the next level is larger; equal levels count as a decrease |
| RedNosedReports.CheckLevelSave | 2024/day-02/src/main.c:49-73 | the loop returns true exactly when every step changes by one to three and moves the way the first step does |
| RedNosedReports.ShortSafe | 2024/day-02/src/main.c:58 | a report with fewer than two levels is safe |
| RedNosedReports.EqualUnsafe | 2024/day-02/src/main.c:67-69 | two equal neighbouring levels make a report unsafe |
| RedNosedReports.TurnUnsafe | 2024/day-02/src/main.c:62-66 | a step that moves against the first step makes a report unsafe |
| RedNosedReports.SafeIff | 2024/day-02/src/main.c:49-73 | a report is safe exactly when it only increases, or only decreases, by one to three at every step |
| RedNosedReports.ReverseTrend | 2024/day-02/src/main.c:56-66 | reading a report backwards turns an increasing one into a decreasing one and back |
| RedNosedReports.ReverseSafe | 2024/day-02/src/main.c:49-73 | a report is safe exactly when it is safe read backwards |
| RedNosedReports.SafeCount | 2024/day-02/src/main.c:83-95 | no more reports are counted than were read |
| RedNosedReports.SafeCountBounds | 2024/day-02/src/main.c:83-95 | every report is counted exactly when all are safe, and none exactly when none is |
| RedNosedReports.AllLevels | 2024/day-02/src/main.c:85 | the levels of every row read, in order |
| RedNosedReports.CountSafeReports | 2024/day-02/src/main.c:83-95 | the loop of `main` counts the safe reports among the rows read, changing none of them |
| RucksackReorganization.Priority | 2022/day-03/src/main.rs:3-20 | exactly the letters have a priority, from 1 to 52, lower case at most 26 and upper case at least 27 |
| RucksackReorganization.LetterOf | 2022/day-03/src/main.rs:3-20 | every priority from 1 to 52 belongs to a letter |
| RucksackReorganization.PriorityInjective | 2022/day-03/src/main.rs:18 | no two letters share a priority |
| RucksackReorganization.InitPriority | 2022/day-03/src/main.rs:3-20 | the two loops build a table holding exactly the 52 letters, each with its priority |
| RucksackReorganization.FilledStep | 2022/day-03/src/main.rs:8-10 | inserting the letter of the next priority adds one entry and keeps the others |
| RucksackReorganization.FindShared | 2022/day-03/src/main.rs:34-35 | the first item of the second list that the first list holds, and none exactly when no item is shared |
| RucksackReorganization.DuplicateShared | 2022/day-03/src/main.rs:31-37 | the duplicated item lies in the first half, and it is the first item of the second half that does |
| RucksackReorganization.DuplicatePanics | 2022/day-03/src/main.rs:36 | `expect` panics exactly when no item of the second half is in the first half |
| RucksackReorganization.PriorityOrZero | 2022/day-03/src/main.rs:39 | each term of the sum is at most 52, and an item without a priority adds nothing |
| RucksackReorganization.DuplicateSum | 2022/day-03/src/main.rs:27-40 | the sum panics exactly when some rucksack has no duplicated item, and is at most 52 per rucksack |
| RucksackReorganization.Chunks | 2022/day-03/src/main.rs:47 | groups of three lines, the last one holding the lines left over |
| RucksackReorganization.ChunksConcat | 2022/day-03/src/main.rs:47 | the groups, put back together, are the lines in order |
| RucksackReorganization.FindBadge | 2022/day-03/src/main.rs:50-54 | the first item of the first line that both other lines hold, and none exactly when there is no such item |
| RucksackReorganization.Badge | 2022/day-03/src/main.rs:48-55 | a badge lies in all three lines of its group, and a group of fewer than three lines panics |
| RucksackReorganization.BadgeSum | 2022/day-03/src/main.rs:44-57 | the sum panics exactly when some group has no badge, and is at most 52 per group |
| RucksackReorganization.BadgeRagged | 2022/day-03/src/main.rs:47-52 | when the number of lines is not a multiple of three, part two panics |
| CompressedMatrix.Zero | 2022/day-08/src/main.rs:43 | a new matrix has the size asked for and reads zero everywhere |
| CompressedMatrix.Set | 2022/day-08/src/main.rs:50 | setting a cell changes that cell to the value given and no other cell, and keeps the size |
| CompressedMatrix.NewlineCount | 2022/day-08/src/main.rs:40 | the number of rows is the number of line feeds in the text, so at most its length and zero exactly when it holds none |
| CompressedMatrix.FirstLineLength | 2022/day-08/src/main.rs:41 | there is a first line, whose length is the number of columns, exactly when the text is not empty |
| CompressedMatrix.FillStep | 2022/day-08/src/main.rs:49-51 | setting the next character of a line extends the filled part of the matrix by that one cell |
| CompressedMatrix.FillNextLine | 2022/day-08/src/main.rs:45-52 | once a line is read to its end, the filled part reaches the start of the next line |
| CompressedMatrix.FillDone | 2022/day-08/src/main.rs:45-52 | once every line is read, every cell on a line holds its character's value and every other cell reads zero |
| HillClimbing.Byte | 2022/day-12/src/lib.rs:12 | the byte of a character is below 256 and is its code when the code fits |
| HillClimbing.GetMatrix | 2022/day-12/src/lib.rs:3-17 | an empty input panics and any other gives a matrix with one row per line feed and the first line's length as columns, holding every character's byte at its line and column and zero elsewhere |
| HillClimbing.FindChar | 2022/day-12/src/lib.rs:19-24 | the position found is a stored cell holding the character's byte, and there is none (a panic) exactly when no stored cell holds it |
| HillClimbing.FindCharOnLine | 2022/day-12/src/lib.rs:19-24 | in a heightmap read from text, the position found lies on a line and is where the character stands in the text |
| HillClimbing.FindCharFound | 2022/day-12/src/lib.rs:19-24 | a character of the text other than NUL and below 256 is always found |
| TreetopTreeHouse.DigitOrZero | 2022/day-08/src/main.rs:48 | a digit's height is its value, at most 9 |
| TreetopTreeHouse.FillDigits | 2022/day-08/src/main.rs:45-52 | the filling panics exactly when some character of some line is not a digit, and otherwise gives the size asked for with every digit's value at its line and column and zero elsewhere |
| TreetopTreeHouse.ShorterInRow | 2022/day-08/src/main.rs:11-20 | the result is true exactly when every tree of the row in the column range is shorter than the value |
| TreetopTreeHouse.ShorterInColumn | 2022/day-08/src/main.rs:23-32 | the result is true exactly when every tree of the column in the row range is shorter than the value |
| TreetopTreeHouse.TallestIff | 2022/day-08/src/main.rs:7-35 | a tree is visible exactly when it is strictly taller than every tree between it and one of the four edges |
| TreetopTreeHouse.HiddenIff | 2022/day-08/src/main.rs:7-35 | a tree is hidden exactly when, in each of the four directions, some tree is at least as tall |
| TreetopTreeHouse.EdgeVisible | 2022/day-08/src/main.rs:16-32 | every tree on the border of the grid is visible |
| TreetopTreeHouse.RowVisible | 2022/day-08/src/main.rs:57-62 | at most as many trees of a row are visible as the row has columns counted |
| TreetopTreeHouse.RowsVisibleBound | 2022/day-08/src/main.rs:54-63 | no more trees are visible than the grid holds |
| TreetopTreeHouse.RowEdgesVisible | 2022/day-08/src/main.rs:54-63 | a row of two or more trees shows at least two, and a row of one tree shows it |
| TreetopTreeHouse.RowFirstVisible | 2022/day-08/src/main.rs:54-63 | a visible first tree is counted in every prefix of its row |
| TreetopTreeHouse.TallestSame | 2022/day-08/src/main.rs:7-35 | visibility depends only on the size of the grid and the heights of its cells |
| TreetopTreeHouse.RowsVisibleSame | 2022/day-08/src/main.rs:54-63 | the count depends only on the size of the grid and the heights of its cells |
| TreetopTreeHouse.RowVisibleSame | 2022/day-08/src/main.rs:57-62 | the count along a row depends only on the size of the grid and the heights of its cells |
| TreetopTreeHouse.CountVisibleLoop | 2022/day-08/src/main.rs:54-63 | the loops test every cell of the grid once and leave the number of visible trees in `visible` |
| TreetopTreeHouse.Visible | 2022/day-08/src/main.rs:37-63 | the program panics exactly when the input is empty or some character of a line is not a digit, and otherwise answers the number of visible trees of the grid filled from the lines with the sizes it computes |
| TreetopTreeHouse.VisibleDetermined | 2022/day-08/src/main.rs:37-63 | two grids of the same size filled from the same input have the same number of visible trees, so the answer is determined by the input |
| Text.ParsedU32s | 2022/day-04/src/main.rs:11-13 | the numbers kept are at most as many as the pieces, each fits in `u32` |
| Text.ParsedU32sAll | 2022/day-04/src/main.rs:11-13 | when every piece parses as `u32`, none is dropped and each number is its own piece's value |
| Text.ParsedU32sSkip | 2022/day-04/src/main.rs:13 | a piece that does not parse as `u32` is skipped without a panic |
| CampCleanup.SectionFromString | 2022/day-04/src/main.rs:10-17 | a range is read exactly when at least two pieces between the dashes parse as `u32`, and otherwise `unwrap` panics |
| CampCleanup.SectionRoundTrip | 2022/day-04/src/main.rs:10-17 | the text `a-b` of two `u32` numbers reads back as the range from `a` to `b` |
| CampCleanup.IntersectIff | 2022/day-04/src/main.rs:19-22 | for two ranges that are not empty, the test holds exactly when one range contains every section of the other |
| CampCleanup.IntersectSymmetric | 2022/day-04/src/main.rs:19-22 | the test gives the same answer with the two ranges swapped |
| CampCleanup.IntersectReflexive | 2022/day-04/src/main.rs:19-22 | every range passes the test with itself |
| CampCleanup.PartialOverlap | 2022/day-04/src/main.rs:19-22 | two ranges that only overlap, neither containing the other, fail the test |
| CampCleanup.ParsePair | 2022/day-04/src/main.rs:32-37 | a line gives a pair only when it has at least two pieces between the commas, and the pair is the ranges read from the first two |
| CampCleanup.PairRoundTrip | 2022/day-04/src/main.rs:32-37 | the line `a-b,c-d` of two ranges of `u32` reads back as those two ranges |
| CampCleanup.ParsePairs | 2022/day-04/src/main.rs:30-37 | all lines are read exactly when each reads as a pair, and then the k-th pair is the k-th line's |
| CampCleanup.ParsePairsLines | 2022/day-04/src/main.rs:30-37 | the lines written for a list of pairs read back as that list |
| CampCleanup.Contained | 2022/day-04/src/main.rs:38-40 | no more pairs are counted than there are |
| CampCleanup.ContainedBounds | 2022/day-04/src/main.rs:38-40 | all pairs are counted exactly when every pair passes the test, and none exactly when none does |
| CampCleanup.CountContained | 2022/day-04/src/main.rs:30-40 | the program answers exactly when every line reads as a pair, and the answer is at most the number of lines |
| CampCleanup.CountContainedText | 2022/day-04/src/main.rs:30-40 | for the input written from a list of pairs, one per line, the answer is the number of pairs in which one range contains the other |
| CampCleanup.ExampleCount | 2022/day-04/src/main.rs:38-40 | of six pairs, the two in which one range contains the other are counted |
| TuningTrouble.Recent | 2022/day-06/src/main.rs:10 | the queue keeps as many of the latest elements as fit, in order, the newest last |
| TuningTrouble.CircularQueue.constructor | 2022/day-06/src/main.rs:10 | a new queue is empty and has the capacity asked for |
| TuningTrouble.CircularQueue.Push | 2022/day-06/src/main.rs:14 | after a push the queue holds the last `capacity` elements of its old contents followed by the new one |
| TuningTrouble.Elements | 2022/day-06/src/main.rs:17-20 | a character is in the set exactly when it is in the window |
| TuningTrouble.ElementsBound | 2022/day-06/src/main.rs:17-21 | a window has at most as many distinct characters as it has characters |
| TuningTrouble.Window | 2022/day-06/src/main.rs:10-14 | after `n` characters the window holds the last four of them, or all `n` when fewer have been read |
| TuningTrouble.WindowStep | 2022/day-06/src/main.rs:13-14 | pushing the next character into the window of the characters read so far gives the window after it |
| TuningTrouble.FirstLine | 2022/day-06/src/main.rs:13 | the scanned characters are the longest prefix of the input without a line feed, which ends at the first line feed or at the end |
| TuningTrouble.Scan | 2022/day-06/src/main.rs:13-22 | the scan stops within the line, after at least one more character whenever one is left |
| TuningTrouble.ScanFirst | 2022/day-06/src/main.rs:13-22 | the scan stops right after the first flagged position, or at the end of the line when none is flagged |
| TuningTrouble.MarkerFound | 2022/day-06/src/main.rs:13-22 | when some window of the line holds four different characters, the result is the number of characters read up to the first such window |
| TuningTrouble.MarkerMissing | 2022/day-06/src/main.rs:13-24 | with no such window, the result is the length of the line |
| TuningTrouble.MarkerAtLeastFour | 2022/day-06/src/main.rs:17-21 | a marker found lies at least four characters in |
| TuningTrouble.MarkerPrefix | 2022/day-06/src/main.rs:21 | once the marker is found, the characters after it are never read and do not change the result |
| TuningTrouble.CollectUnique | 2022/day-06/src/main.rs:17-20 | the set filled from the queue holds exactly the characters in it |
| TuningTrouble.FindMarker | 2022/day-06/src/main.rs:7-24 | the number printed is the number of characters of the first line read up to and including the first four that are all different, or the line's length when there are none |
| TuningTrouble.FourDifferent | 2022/day-06/src/main.rs:21 | four characters that differ pairwise make a set of four |
| TuningTrouble.RepeatNotDistinct | 2022/day-06/src/main.rs:21 | a window of at most four in which a character repeats makes a set of fewer than four |
| TuningTrouble.MarkerExactly | 2022/day-06/src/main.rs:13-22 | a marker after `k` characters with none before it is exactly what the scan returns |
| TuningTrouble.ExamplePrefix | 2022/day-06/src/main.rs:13-22 | the marker of `mjqjpqm` is found after seven characters |
| TuningTrouble.ExampleMarker | 2022/day-06/src/main.rs:13-22 | every datastream that starts with `mjqjpqm` has its marker after seven characters |
| CalorieCounting.SumU32FromIff | 2022/day-01/src/main.rs:11 | adding from a running sum that fits, the sum panics exactly when the running sum plus the rest does not fit in `u32`, and is that total otherwise |
| CalorieCounting.SumU32Iff | 2022/day-01/src/main.rs:11 | `sum::<u32>` of numbers panics exactly when their total does not fit in `u32`, and gives the total otherwise |
| CalorieCounting.GroupTotal | 2022/day-01/src/main.rs:8-12 | an elf's total is the sum of the lines that parse as `u32`, the other lines ignored, and panics exactly when that sum does not fit |
| CalorieCounting.Totals | 2022/day-01/src/main.rs:7-13 | the totals are collected exactly when no elf's total overflows, one per group in the group's order |
| CalorieCounting.SortedCons | 2022/day-01/src/main.rs:15 | a total no larger than the first of a sorted list can go in front of it |
| CalorieCounting.Insert | 2022/day-01/src/main.rs:15 | inserting a total into a sorted list keeps it sorted and adds exactly that total |
| CalorieCounting.Sort | 2022/day-01/src/main.rs:15 | the sorted list is ascending and holds exactly the totals, as many times each |
| CalorieCounting.SortedUnique | 2022/day-01/src/main.rs:15 | two ascending lists with the same elements are equal, so every correct sort leaves the same list |
| CalorieCounting.SortedFirst | 2022/day-01/src/main.rs:15 | two ascending lists with the same elements start with the same element |
| CalorieCounting.SortedButStart | 2022/day-01/src/main.rs:15 | before the next element is moved, only it may be out of place in the part sorted so far |
| CalorieCounting.SortedButSwap | 2022/day-01/src/main.rs:15 | swapping the moving element with the larger one before it moves it one place down and keeps the rest in order |
| CalorieCounting.SortedButDone | 2022/day-01/src/main.rs:15 | once the moving element meets a smaller or equal one, or the front, the part up to it is sorted |
| CalorieCounting.SortInPlace | 2022/day-01/src/main.rs:15 | the array is left ascending and is a permutation of what it held |
| CalorieCounting.LastThreeLargest | 2022/day-01/src/main.rs:17-20 | in a sorted list no three entries add up to more than the last three |
| CalorieCounting.LastThreeOrderFree | 2022/day-01/src/main.rs:7-20 | the answer depends only on the totals, not on the order in which the elves are listed |
| CalorieCounting.TopThreeFewer | 2022/day-01/src/main.rs:17 | fewer than three elves make `x.len() - 3` underflow, and an overflowing elf total stops the program earlier; either is a panic |
| CalorieCounting.MostCalories | 2022/day-01/src/main.rs:3-20 | the program's answer is the sum of the last three totals after sorting, and it panics exactly where that is undefined |
| CalorieCounting.GroupTextNumbers | 2022/day-01/src/main.rs:9-10 | the lines written for an elf's numbers read back as those numbers |
| CalorieCounting.GroupTextBlankFree | 2022/day-01/src/main.rs:7 | an elf's lines contain no blank line, so the split at blank lines keeps them together |
| CalorieCounting.InventoryTopThree | 2022/day-01/src/main.rs:3-20 | for the input written from a list of elves, blank lines between them, the answer is the sum of the three largest of their calorie totals |
| CalorieCounting.LastThreeOf | 2022/day-01/src/main.rs:17-20 | a list ending in `a`, `b`, `c` gives `a + b + c` when it fits in `u32` |
| CalorieCounting.ExampleSorted | 2022/day-01/src/main.rs:15-20 | the ascending totals 4000, 6000, 10000, 11000 and 24000 give 45000 |
| CalorieCounting.ExampleTopThree | 2022/day-01/src/main.rs:15-20 | five elves with 6000, 4000, 11000, 24000 and 10000 calories, in any order, give 45000 |
| CalorieCounting.Calories | 2022/day-01/src/main.rs:11 | an elf's calories are the sum of its numbers, never negative |
| NoSpaceLeft.Parents | 2022/day-07/src/index.ts:16 | one parent pointer per directory, the directory's own |
| NoSpaceLeft.Totals | 2022/day-07/src/index.ts:17 | one total per directory, the sizes of the files it holds directly |
| NoSpaceLeft.ChildrenMembers | 2022/day-07/src/index.ts:18 | a directory's children are exactly the directories made before that name it as parent, in increasing arena order |
| NoSpaceLeft.FileAdded | 2022/day-07/src/index.ts:67-73 | adding a file to a directory and its size along the way up keeps the arena a tree with correct sizes, and exactly that directory and its ancestors grow, by the file's size |
| NoSpaceLeft.FolderAdded | 2022/day-07/src/index.ts:75-80 | appending a new empty child directory keeps the arena a tree with correct sizes |
| NoSpaceLeft.DirectorySize | 2022/day-07/src/index.ts:44-52 | in a valid tree, a directory's size is the total of its own files plus the sizes of its subdirectories |
| NoSpaceLeft.Initial | 2022/day-07/src/index.ts:34-37 | the new cursor has no root and no current directory, which is a valid state |
| NoSpaceLeft.AfterCreateRoot | 2022/day-07/src/index.ts:39-42 | a fresh tree of one empty root directory, which is also the current one |
| NoSpaceLeft.FindChild | 2022/day-07/src/index.ts:61 | the first child with the name, or none when no child has it |
| NoSpaceLeft.AfterCd | 2022/day-07/src/index.ts:54-65 | `/` starts a fresh tree; without a current directory anything else fails; a name succeeds exactly when a child has it and moves to such a child, keeping the tree |
| NoSpaceLeft.AfterInsertFile | 2022/day-07/src/index.ts:67-73 | succeeds exactly with a current directory; the file joins its files, and the sizes of exactly it and its ancestors grow by the file's size |
| NoSpaceLeft.AfterInsertFolder | 2022/day-07/src/index.ts:75-80 | succeeds exactly with a current directory; a new empty directory that names it as parent is appended and becomes its last child, and no size changes |
| NoSpaceLeft.CdBack | 2022/day-07/src/index.ts:54-65 | moving into a child by name and back with `..` returns to the same cursor |
| NoSpaceLeft.Word | 2022/day-07/src/index.ts:92 | a destructured element is the word at that position, and `undefined` exactly past the end |
| NoSpaceLeft.JsNumber | 2022/day-07/src/index.ts:103 | the empty text is 0, and any value read is that of the trimmed text's decimal digits |
| NoSpaceLeft.JsNumberDecimal | 2022/day-07/src/index.ts:103 | a decimal rendering is read back as its value |
| NoSpaceLeft.ParseRow | 2022/day-07/src/index.ts:90-104 | commands start with `$`, `dir` rows start with `dir` and not `$`, and every other row is a file |
| NoSpaceLeft.ParseRowText | 2022/day-07/src/index.ts:91-104 | every row a session can print is read back as what it was printed from |
| NoSpaceLeft.Step | 2022/day-07/src/index.ts:90-105 | one row applied to a valid cursor leaves it valid |
| NoSpaceLeft.Run | 2022/day-07/src/index.ts:90-105 | the rows applied in order leave the cursor valid |
| NoSpaceLeft.NonEmpty | 2022/day-07/src/index.ts:86 | only non-empty rows are kept, each taken from the input |
| NoSpaceLeft.NonEmptyKeeps | 2022/day-07/src/index.ts:86 | a list without empty rows is kept whole |
| NoSpaceLeft.RowsJoin | 2022/day-07/src/index.ts:86 | rows without line feeds, written one per line, are read back as they were |
| NoSpaceLeft.ClimbedEnds | 2022/day-07/src/index.ts:44-52 | before the walk up nothing has changed, and at its end the size is added to the directory and all its ancestors |
| NoSpaceLeft.ClimbedStep | 2022/day-07/src/index.ts:48-51 | one step of the walk adds the size to the directory reached and goes on at its parent |
| NoSpaceLeft.Cursor.constructor | 2022/day-07/src/index.ts:34-37 | the new cursor is the initial state |
| NoSpaceLeft.Cursor.CreateRoot | 2022/day-07/src/index.ts:39-42 | the cursor becomes a fresh tree of one root, current |
| NoSpaceLeft.Cursor.UpdateSize | 2022/day-07/src/index.ts:44-52 | fails exactly without a current directory; otherwise adds the size to the current directory and every ancestor, and changes nothing else |
| NoSpaceLeft.Cursor.Cd | 2022/day-07/src/index.ts:54-65 | succeeds exactly when `AfterCd` does, then taking its state, and leaves the cursor as it was otherwise |
| NoSpaceLeft.Cursor.InsertFile | 2022/day-07/src/index.ts:67-73 | succeeds exactly when `AfterInsertFile` does, then taking its state, and leaves the cursor as it was otherwise |
| NoSpaceLeft.Cursor.InsertFolder | 2022/day-07/src/index.ts:75-80 | succeeds exactly when `AfterInsertFolder` does, then taking its state, and leaves the cursor as it was otherwise |
| NoSpaceLeft.Small | 2022/day-07/src/index.ts:116-118 | only directories of size at most 100000 are collected |
| NoSpaceLeft.SmallSizes | 2022/day-07/src/index.ts:116-122 | adding up the sizes of the collected directories is adding up the sizes of at most 100000 |
| NoSpaceLeft.VisitDone | 2022/day-07/src/index.ts:115-120 | once every queued directory is visited, every directory has been queued exactly once, and the small sizes add up as over the whole arena |
| NoSpaceLeft.SmallDirectories | 2022/day-07/src/index.ts:112-122 | the traversal from the root visits each directory exactly once, collects those of size at most 100000 in visiting order, and their sizes add up to the total over the arena |
| NoSpaceLeft.SizeTotal | 2022/day-07/src/index.ts:122 | the `reduce` gives the total size of the collected directories |
| NoSpaceLeft.Survey | 2022/day-07/src/index.ts:86-122 | the program's result is the answer of the session's rows: a failed assertion gives none, otherwise the total of the sizes of at most 100000 |

## Left out

- Reading the input file, printing, and the `Display` implementations used only for debugging output are not modelled.
- The `matrix` crate is not part of this model. `Conventional` grids are sequences of rows, and `Compressed` matrices are maps in which a missing cell reads as the zero token. The crate's bounds checks are not modelled: a read outside a `Compressed` matrix gives the zero token.
- `char::is_numeric` is modelled by the ASCII digits. A non-ASCII numeric character would make the source's `parse::<u32>` panic, and the model treats it as a symbol.
- GearRatios.EngineSchematic.InsertLine: requires every number token to be at least one cell wide, because with `len == 0` the source's `idx -= 1` underflows and panics. The parser never produces such a token (see `TokensPositive`).
- The sizes in 2023 day 3 are modelled as the source computes them: the matrix has one more row than the first line has characters, and as many columns as there are lines. Only square inputs place every symbol inside the scanned area.
- The `main` functions of 2023 days 2, 3 and 10 are not modelled: the sums of possible game ids and of powers, of part numbers and of gear ratios, and the call of the two parts of day 10. The functions they combine are modelled, as the rows above state.
- CubeConundrum.GameSetFromStr: the `u8` fields of `GameSet` are `nat` in the model, with `IsU8Set` as a proved bound instead of a type. Every count is parsed as a `u8`, so no arithmetic on them can wrap.
- CubeConundrum.ParseExample: only the first unit test line is parsed in the model. Of the other test games, only the third one's minimum and power are evaluated (`PowerExample`), on its sets given directly; the `check` results and the sum 8 are not evaluated.
- PipeMaze.StepsToFarthestPoint: the returned value is proved to be the largest distance assigned, and the distances are proved to be the shortest walk lengths. It is not proved to be half the length of the main loop, because that needs a theory of cycles in the pipe graph that the source only assumes ("no dead ends").
- PipeMaze.StepsToFarthestPoint and PipeMaze.GetMainLoop: completeness (every reached tile gets its shortest distance, or is copied) is stated only when the start tile holds `S`. A sketch built by hand could hold another pipe there, and then walks could pass through the start, which neither loop expands.
- PipeMaze.VisitSide and PipeMaze.FollowSide: a neighbour outside the grid ends the model at once. The source records and queues it and panics only when it is dequeued, so the outcome, a panic, is the same.
- The example files that the 2023 day 10 unit tests read are not part of this model, so the step counts 4 and 8 and the enclosed counts 4, 4, 8 and 10 are not evaluated.
- CamelCards: the example file that the 2023 day 7 ordering tests read is not part of this model. The expected sorted list is proved strictly ascending and the only ascending arrangement of its hands, and its total winnings are evaluated; the example's order in the file is not known.
- CamelCards: the `sort` in `main` and in the tests is not modelled as an algorithm. `AscendingUnique` states that, for hands whose cards differ pairwise, any correct sort gives one result.
- CamelCards.AscendingUnique: hands with the same cards and different bids, such as `32T3K 765` and `32T3K 684`, compare as equal; no strictly ascending arrangement of them exists, and the stable `sort` of the source keeps them in the order of the file, which the model does not state.
- CamelCards.GetType: the iteration order of the `HashMap` is a parameter (`order`, listing every card), since it is not fixed in the source. The type is proved not to depend on it.
- CamelCards.WinningsFitU64: the `u64` fold is modelled on unbounded integers, with the bound proved only for at most 2^24 hands; beyond that the source can overflow and panic in a debug build.
- CamelCards.TypeOrder: the `PartialOrd` derived for `HandType` and `Card` is modelled by a rank per variant.
- Scratchcards.ProcessCards: the `u64` instance counts and the `u64` sum of them are unbounded integers in the model; the source can overflow them, which the model does not capture.
- Scratchcards.ScoreFitsU64: the bound is proved only for at most 64 matches; a card with more matches overflows `2_u64.pow` in the source.
- Scratchcards.ParseCard: the numbers are `nat` with a proved `u8` bound, and a number beyond `u8` is a parse error, as the `unwrap` on it panics.
- ScratchcardsExamples.ParseExample: only the line of card 13 is parsed; the six example cards of the other tests are given directly, as they parse.
- Observatory.FromStr: the `Conventional::from_vec` and `transpose` steps of the `matrix` crate are taken to give the matrix whose row `y` is line `y`. Lines of different lengths are a parse error in the model; `from_vec` in the crate is not part of this model.
- Observatory.Expand: the sizes and positions are `usize` in the source and unbounded in the model, so an overflow that the source would panic on is not captured.
- CosmicExpansion.MinDistanceSum: the `usize` sum is unbounded in the model. For a list with repeated coordinates the source counts some pairs twice; the model states the result for every list, but the every-pair-once property only for distinct coordinates, which `to_galaxies` yields.
- Observatory.ToGalaxies: `par_bridge` gives no order, so the model promises only that each galaxy appears once; the list order is left open.
- CosmicExpansion.PartOne: the `main` function of 2023 day 11 calls `expand()` without the `to` argument that `expand` takes; the model uses `to = 2`, the factor of part one.
- The example files that the 2023 day 11 tests `parse`, `expand`, `expand_10` and `part1` read are not part of this model, so their expected texts and the sum 374 are not evaluated. `CosmicExpansionExamples` evaluates the sum on a small sky instead.
- HauntedWasteland.WalkToZzz: the source loops forever when `ZZZ` is never reached; the model takes a step budget `fuel` and ends with `OutOfFuel` once it is spent.
- HauntedWasteland.WalkToZPar: the same step budget bounds each walk. The `u64` step counts and their lcm are unbounded in the model, so an overflow is not captured.
- NumberTheory.LcmOf: the `lcmx` crate is not part of this model. It is taken to give no result for an empty list, so that `unwrap` panics, and the lcm of the elements otherwise, with zero as the lcm of a list holding zero.
- HauntedWasteland: string slicing such as `line[0..3]` is modelled on characters, which agrees with the source's byte slicing for ASCII input; a slice that splits a multi-byte character panics in the source and is not captured.
- The example file that the 2023 day 8 tests read is not part of this model. `HauntedWastelandExamples.Parse` parses the text that `MapText` writes for the test's network instead; the part-one walk is not evaluated on it.
- SeedAlmanac.ConvertCategories: the sum `s_range_start + len` is `u64` in the source and unbounded in the model; `ConvertFits` states the bound under which no range end overflows, but an overflow that would panic in the source is not captured.
- SeedAlmanac.FindLowestLocationUsingRange: `first + len` may overflow `u64` in the source; the model's intervals are unbounded. The iterator chain is modelled as nested loops that visit the seeds in the same order.
- The example file that the 2023 day 5 tests read is not part of this model. `SeedAlmanacExamples.Parse` parses the text that `AlmanacText` writes for the example with the puzzle's section headers instead.
- SeedAlmanacExamples: test `t3` (lowest location 46 over 27 seeds) is not evaluated; part two's meaning is stated by `LowestLocationUsingRangeNone` and `LowestLocationUsingRangeLeast` instead.
- BoatRace.GetPartOne: the `usize` product is taken as 64 bits wide, and an overflow is a panic, as in a debug build.
- BoatRace.GetDistance: the `u64` arithmetic of `get_distance` is modelled as a debug build does it: a product beyond `u64` or a negative difference is a panic.
- The example file that the 2023 day 6 tests read is not part of this model. `BoatRaceExamples` parses the text that `RacesText` writes for the example's races instead.
- BoatRace.ParseRaces: an input with fewer than two lines makes `unwrap` panic, which is an error result in the model; extra lines are ignored, as in the source.
- RockPaperScissors.PartOne: the `u32` sums are unbounded in the model; with at most nine points per line they stay within `u32` for fewer than 477 million lines.
- RockPaperScissors: the example guide is the puzzle's, which the source reads from a commented-out `example_input.txt`; the file itself is not part of this model.
- Trebuchet.FirstDigit: `is_numeric` in the source also accepts numeric characters beyond ASCII, for which `to_digit(10)` fails and the digit defaults to 0; the model accepts only `0` to `9`.
- Trebuchet.PartOne: the `u64` sums are unbounded in the model; each line adds at most 99.
- Trebuchet.FancyCalibration: the iteration order of the `HashMap` is a parameter (`order`, listing every entry once), since it is not fixed in the source. The result is proved not to depend on it.
- Trebuchet.Replace: `str::replace` with an empty pattern inserts the replacement between all characters; every pattern here is a name of at least three letters, so the model requires a non-empty one.
- RopeBridge: the `i32` coordinates are unbounded in the model, so an overflow after more than two billion steps in one direction is not captured.
- RopeBridge.CountVisited: the `HashSet` of visited cells is a set, and its size the answer.
- RopeBridge.ParseMotion: a line with fewer than two words, a count that is not a `u8` or an unknown direction panics in the source and gives no result in the model.
- RopeBridge: 2022 day 9 has no unit tests, and the example file it can read instead is not part of this model.
- RegolithReservoir: `usize` is taken as 64 bits wide; a largest number of `usize::MAX` overflows `+ 1` in `build_matrix`, which is a panic in the model.
- RegolithReservoir.Get: the `Compressed` matrix of the `matrix` crate is not part of this model. It is taken to read every cell not set as `Void`, inside or outside its size, and to accept a set anywhere.
- RegolithReservoir.NextMove: `col - 1` at column 0 with the cell below taken underflows, which is a panic in the model; `col + 1` and `row + 1` cannot overflow on a grain inside the matrix.
- RegolithReservoir: the prints of `main` are not modelled, and the example file it reads is not part of this model.
- SupplyStacks: `char::is_numeric` and `char::is_alphabetic` are modelled by the ASCII digits and letters; numeric or alphabetic characters beyond ASCII are not captured.
- SupplyStacks: the `HashMap` of stacks is a map from keys to stacks; its iteration order plays no part, as the output is read by key.
- SupplyStacks.TableRoundTrip: the drawing is written for one to nine stacks of ASCII letters, since a stack number of two digits would put two digits in one column.
- SupplyStacks.ParseProcedure: the `usize` fields are `nat` bounded by `u32`, as every number passes `parse::<u32>` first.
- SupplyStacks: the `println` of `main` is not modelled, and the example file it can read instead is not part of this model.
- MirageMaintenance.FindNextLoop: the `i64` differences and the fold are unbounded in the model, so a subtraction or sum that overflows, a panic in a debug build, is not captured.
- MirageMaintenance.SumNext: the `i64` sum over the lines is unbounded in the model.
- The example file that the 2023 day 9 tests read is not part of this model. `MirageMaintenance.ExampleReport` parses the text that `HistoryText` writes for the three histories of the `parse` test instead.
- DistressSignal.ParseGroup: `serde_json::from_str` is not part of this model; it is a parameter `parse` from a line to a value or a failure.
- DistressSignal.Process: a JSON number that is a float or beyond `i64` fails `as_i64` in the source; the model's numbers are integers, and only those beyond `i64` panic. `Other` stands for every other JSON variant (null, booleans, strings, objects).
- DistressSignal: the `println` of `main` is not modelled, and the example file it reads is not part of this model; 2022 day 13 has no unit tests.
- RedNosedReports: `read_line`, `file_peek`, the file handling and the prints of `main` are not modelled; the rows are given. `read_line` writes past `buf[3]` for a number of three digits and past `items[10]` for a line of more than ten numbers, which the model does not capture: a row holds at most ten levels.
- RedNosedReports.CheckLevelSave: the C `int` arithmetic is unbounded in the model, so `next - current` overflowing, or `abs` of `INT_MIN`, is not captured; levels read by `read_line` have at most two digits.
- RedNosedReports.CountSafeReports: the `int` counter is unbounded in the model.
- RucksackReorganization: the `HashMap` of priorities is a map, and the sums read the priority of an item from `Priority`, which the map built by `InitPriority` agrees with. The `usize` sums are unbounded in the model; each term is at most 52.
- RucksackReorganization: the printing of `main` is not modelled, and its input file is not part of this model; 2022 day 3 has no unit tests.
- CompressedMatrix.Set: a `set` outside the matrix's size is accepted in the model; whether the crate refuses it is not part of this model. A last line with no line feed after it, or a line longer than the first, puts cells outside the size, which the days 8 and 12 never read back within their loops.
- CompressedMatrix.FirstLineLength and HillClimbing.GetMatrix: `str::len` counts bytes, the model counts characters; the two agree on ASCII input. A first line `é` gives 2 columns in the source and 1 in the model. For 2022 day 8 the gap cannot show, because any non-ASCII character already panics at `to_digit(10).unwrap()`.
- HillClimbing.FindChar: the crate's iteration order is not part of the model, so which of several matching stored cells is found is left open; whether a zero is stored or dropped by the crate is not captured, hence the NUL exclusions in `FindCharOnLine` and `FindCharFound`.
- HillClimbing: the `main` of 2022 day 12 only reads the file and prints, and is not modelled; the example file it reads is not part of this model.
- TreetopTreeHouse.CountVisibleLoop: the `visible` counter is unbounded in the model.
- TreetopTreeHouse: the `println` of `main` is not modelled, and the input file it reads is not part of this model; 2022 day 8 has no unit tests.
- CampCleanup.CountContained: the `u32` sum is unbounded in the model; it counts at most one per line, so it stays within `u32` for fewer than 2^32 lines.
- CampCleanup.IntersectIff: a range whose start lies beyond its end is empty; the test on it compares the ends as written, which the model keeps, and the containment reading is stated only for ranges that are not empty.
- CampCleanup: the `println` of `main` is not modelled, and the input file it reads is not part of this model; 2022 day 4 has no unit tests.
- TuningTrouble.CircularQueue: the `circular_queue` crate is not part of this model. Its queue is modelled by its contents, oldest first, with `push` dropping the oldest element once the capacity is reached; its iteration order plays no part, as the elements go into a set.
- TuningTrouble.FindMarker: the `i32` counter `total_amount` is unbounded in the model; it counts at most the characters of one line.
- TuningTrouble: the `println` of `main` is not modelled, and the input file it reads is not part of this model; 2022 day 6 has no unit tests.
- CalorieCounting.SortInPlace: `slice::sort` is a stable merge sort in the standard library, which is not part of this model; it is modelled as an insertion sort by swaps. For numbers every ascending permutation is the same list (`SortedUnique`), so the algorithm does not change the answer.
- CalorieCounting.MostCalories: `v.parse::<u32>()` is applied to the lines as `split("\n")` yields them, so a line ending in `\r` is ignored, as in the source.
- CalorieCounting: the `println` of `main`, which also prints the sorted totals, is not modelled, and the input file it reads is not part of this model; 2022 day 1 has no unit tests.
- NoSpaceLeft.JsNumber: `Number` is modelled only on text of decimal digits with surrounding whitespace. A size written with a sign, a fraction, an exponent, a hexadecimal prefix or any other text gives no result, and the model ends the session there; in the source such a size is a fraction, or `NaN`, which then spreads through the sizes.
- NoSpaceLeft: sizes are unbounded naturals in the model. The source's sizes are JavaScript numbers, which lose precision beyond 2^53.
- NoSpaceLeft: the directories are objects that point to each other in the source, and are kept in an arena of indices in the model. A `cd /` after the first starts a fresh tree, and the model drops the old arena, which the source no longer reaches either.
- NoSpaceLeft.Step: a failed `assert.ok` throws in the source and ends the program; in the model it is a `None` that stops the remaining rows. `Step` and `Run` are specified only by the validity they keep; what each row does is stated by `AfterCd`, `AfterInsertFile` and `AfterInsertFolder`.
- NoSpaceLeft: reading the input file and the `console` output are not modelled; `Survey` takes the file's text as a parameter and returns the computed size.

## Findings

| source | as written | input that shows it | evidently intended | confidence | as-written member | corrected member |
|---|---|---|---|---|---|---|
| 2023/day-03/src/main.rs:100-110 | both ends of the scan window are chosen by comparing the symbol's row `x` with the number of columns; when they are equal, the window spans columns `y - 1` to the number of rows | input `"\n*.5"`: a 4 by 1 matrix with the gear at row 1, where the 5 two columns away is returned as adjacent. The 5 is written at (1, 2) and the scan reads up to column 4, both outside the 4 by 1 matrix. No input reaches the quirk with in-bounds reads only, so this holds only if the `matrix` crate's `set` and `get` accept cells outside the matrix, which is not part of this model | scan the cells at most one row and one column from the symbol | not executed | GearRatios.WindowQuirk | GearRatios.EngineSchematic.AdjacentNumbers |
