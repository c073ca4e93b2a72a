# AdventOfCode2020 in Dafny

This project models the core of a Swift repository of Advent of Code 2020 solutions and proves properties of that model. The repository has two parts. Its library, `Sources/AdventOfCode`, holds general helpers. Its test target holds the puzzle engines, one per day. Both parts are modelled.

The model covers:

- **The library.**
  - `LinkedList`, `ListNode` and `ListIterator` are modelled as Dafny classes with heap-allocated nodes. `push`, `pop`, `append`, both `insert`s, `removeFirst`, `circularRotate`, `findNode` and `findNodeBefore` relink `next` fields in place.
  - The index types `Index2D`, `Index3D` and `Index4D` and `IndexingRange`.
  - `SeatFinder`, `SetSimplifier` and `ModuloUtils.numberAtLeast`.
  - `ColoredBags` and its `BagChecker`.
  - `Set.toggle`, the `Collection` helpers, `CharGrid` and `IntLoc`.
- **The puzzle engines in the tests.**
  - Day 2 password policies, Day 3 toboggan runs, Day 4 passports, Day 6 customs forms.
  - Day 8 handheld console, Day 9 XMAS cipher, Day 10 adapter chains, Day 11 seating system.
  - Day 12 ship navigation, Day 13 bus schedules, Day 14 docking-data bit masks, Day 15 memory game.
  - Day 16 ticket rules, Day 17 Conway cubes in 3 and 4 dimensions, Day 18 operation order, Day 20 tile edge matching.
  - Day 21 allergens, Day 22 Combat, Day 23 crab cups on the linked list, Day 24 hexagonal lobby floor.

Each engine works on values that are already parsed. Code that changes state step by step, such as loops and `mutating` methods, is modelled as a Dafny method with loop invariants. Each such method is proved against a specification function of its inputs. A `reduce(into:)` accumulation is sometimes a method with a loop and sometimes a fold function: `TileMatching.Edge2TileMap`, for one, is a left fold with no method beside it. Swift value-type structs with `mutating` methods are datatypes whose methods return the new value. Swift traps (`!`, `fatalError`, a closed range `a ... b` with `a > b`, `assert`) become preconditions. Swift `%` and `/` truncate toward zero, and the model says so where the operands can be negative. `Int` is modelled as the unbounded `int`. Each day's worked examples from the tests are proved as lemmas in a separate `...Example` module.

Three places where the code does something other than what its neighbours expect are modelled as the code does it:

- `insert(_:after:)` with an empty list to insert cuts the receiver off after the anchor (or empties it when there is no anchor).
- `insert(_:after:)` after the current tail leaves `tail` pointing at the old tail.
- `removeFirst(_:after:)` with an anchor deeper than the head, removing through the end, sets `tail = head`.

`LinkedList.Valid()` therefore does not include the tail invariant. A separate `TailOk()` states it, and each method states exactly when it keeps it.

Similarly, `SetSimplifier.uniqueify` only removes elements named by singleton sets. The test `testTwosAndAThree` expects `[{test, zest}, {test, zest}, {test, zest, nest}]` to become `[{test, zest}, {test, zest}, {nest}]`. `SetSimplifier.TwosAndAThreeUnchanged` proves that `uniqueify` returns that input unchanged, because it has no singleton (`SetSimplifier.NoSinglesNoChange`).

## Model

| member | source | states |
|---|---|---|
| Collections.Only | Sources/AdventOfCode/utils/Collection+.swift:11-17 | `only()` is the element exactly when there is one element, and `nil` for any other count |
| Collections.FirstWhere | Tests/AdventOfCodeTests/Days/Day16Tests.swift:113-115 | `first(where:)` is `nil` iff no element passes, else the earliest passing element |
| Collections.AsSetSize | Sources/AdventOfCode/utils/Collection+.swift:38 | `asSet` never has more elements than the collection, and has as many when nothing repeats |
| Collections.FoldLeftSnoc | Sources/AdventOfCode/utils/Collection+.swift:21-27 | `reduce` over one more element applies the step once more at the end |
| Collections.ReduceFirstSteps | Sources/AdventOfCode/utils/Collection+.swift:29-34 | `reduceFirst(f)` of one element is that element; each further element adds one application of `f` |
| Collections.ReduceFirstMeet | Sources/AdventOfCode/utils/Collection+.swift:29-34 | with a meet such as `Index.min`, `reduceFirst` is the greatest lower bound of the elements |
| Decimal.NatToString | Tests/AdventOfCodeTests/Days/Day2Tests.swift:82-84 | decimal digits of `n` without a leading zero, one digit exactly when `n < 10` |
| Decimal.IntToString | Tests/AdventOfCodeTests/Days/Day2Tests.swift:82-84 | `"\(i)"` starts with '-' exactly for negative numbers |
| Decimal.NatToStringRoundTrip | Tests/AdventOfCodeTests/Days/Day2Tests.swift:82-84 | reading back the printed digits of `n` gives `n` |
| Decimal.IntToStringRoundTrip | Tests/AdventOfCodeTests/Days/Day2Tests.swift:82-84 | reading back `"\(i)"` gives `i` |
| Decimal.IntToStringInjective | Tests/AdventOfCodeTests/Days/Day2Tests.swift:82-84 | different numbers print differently |
| Sorting.Sort | Tests/AdventOfCodeTests/Days/Day10Tests.swift:114 | `sorted()` is ascending and a permutation of its input |
| Sorting.SortUnique | Tests/AdventOfCodeTests/Days/Day10Tests.swift:114 | any ascending permutation of the input is `sorted()` |
| Sorting.Reverse | Tests/AdventOfCodeTests/Days/Day10Tests.swift:83 | `reversed()` puts element `i` at position `length - 1 - i` |
| Sorting.ReverseAscending | Tests/AdventOfCodeTests/Days/Day10Tests.swift:83 | `sorted().reversed()` descends and keeps the elements |
| Sorting.ReverseReverse | Tests/AdventOfCodeTests/Day22Tests.swift:100 | reversing twice gives the list back |
| Sorting.Max | Tests/AdventOfCodeTests/Days/Day10Tests.swift:114 | `max()!` is an element no smaller than any other; it traps on an empty list |
| Sorting.SortedMax | Tests/AdventOfCodeTests/Days/Day10Tests.swift:83 | the first of `sorted().reversed()` is `max()` |
| Indexing.Index2D.FromComponents | Sources/AdventOfCode/Indexing+specializations.swift:22-25 | `fromComponents` needs exactly 2 components and gives them back through `components` |
| Indexing.ComponentsRoundTrip2D | Sources/AdventOfCode/Indexing+specializations.swift:18-25 | `fromComponents(p.components) == p` |
| Indexing.Index2D.Min | Sources/AdventOfCode/Indexing.swift:61-63 | component-wise `min` is the greatest lower bound of its arguments |
| Indexing.Index2D.Max | Sources/AdventOfCode/Indexing.swift:65-67 | component-wise `max` is the least upper bound of its arguments |
| Indexing.PlusLaws2D | Sources/AdventOfCode/Indexing.swift:41-59 | `+` is commutative and associative, `zero` is its unit, `unitMinus + unitPlus == zero` |
| Indexing.IndicesBetweenSpec2D | Sources/AdventOfCode/Indexing.swift:47-55 | `indicesBetween` holds exactly the points of the box, each once, `x` fastest, `(Δx+1)(Δy+1)` of them |
| Indexing.ContainsSpec2D | Sources/AdventOfCode/Indexing/IndexingRange.swift:20-23 | `contains` is the axis-wise bound test and agrees with membership in `indicesInRange` |
| Indexing.NeighborOffsetsCount2D | Sources/AdventOfCode/Indexing.swift:25-45 | there are 8 neighbour offsets |
| Indexing.NeighborOffsetsDistinct2D | Sources/AdventOfCode/Indexing.swift:25-45 | the neighbour offsets are distinct |
| Indexing.NeighborOffsetsMembers2D | Sources/AdventOfCode/Indexing.swift:25-45 | an offset is a neighbour offset iff it is non-zero with each component in {-1, 0, 1} |
| Indexing.Index3D.FromComponents | Sources/AdventOfCode/Indexing+specializations.swift:54-57 | `fromComponents` needs exactly 3 components and gives them back through `components` |
| Indexing.ComponentsRoundTrip3D | Sources/AdventOfCode/Indexing+specializations.swift:50-57 | `fromComponents(p.components) == p` |
| Indexing.Index3D.Min | Sources/AdventOfCode/Indexing.swift:103-105 | component-wise `min` is the greatest lower bound |
| Indexing.Index3D.Max | Sources/AdventOfCode/Indexing.swift:107-109 | component-wise `max` is the least upper bound |
| Indexing.PlusLaws3D | Sources/AdventOfCode/Indexing.swift:81-101 | `+` is commutative and associative, `zero` is its unit, `unitMinus + unitPlus == zero` |
| Indexing.IndicesBetweenSpec3D | Sources/AdventOfCode/Indexing.swift:87-97 | `indicesBetween` holds exactly the box, each point once, `x` fastest and `z` slowest, with the product count |
| Indexing.ContainsSpec3D | Sources/AdventOfCode/Indexing/IndexingRange.swift:20-23 | `contains` is the axis-wise bound test and agrees with `indicesInRange` |
| Indexing.ExampleBoxCount3D | Tests/AdventOfCodeTests/Day17Tests.swift:44-45 | the box (-1,-1,-1) ... (3,3,1) holds 75 indices |
| Indexing.NeighborOffsetsCount3D | Sources/AdventOfCode/Indexing.swift:81-85 | there are 26 neighbour offsets |
| Indexing.NeighborOffsetsDistinct3D | Sources/AdventOfCode/Indexing.swift:81-85 | the neighbour offsets are distinct |
| Indexing.NeighborOffsetsMembers3D | Sources/AdventOfCode/Indexing.swift:81-85 | an offset is a neighbour offset iff it is non-zero with each component in {-1, 0, 1} |
| Indexing.Index4D.FromComponents | Sources/AdventOfCode/Indexing+specializations.swift:89-92 | `fromComponents` needs exactly 4 components and gives them back through `components` |
| Indexing.ComponentsRoundTrip4D | Sources/AdventOfCode/Indexing+specializations.swift:85-92 | `fromComponents(p.components) == p` |
| Indexing.Index4D.Min | Sources/AdventOfCode/Indexing.swift:151-156 | component-wise `min` is the greatest lower bound |
| Indexing.Index4D.Max | Sources/AdventOfCode/Indexing.swift:158-163 | component-wise `max` is the least upper bound |
| Indexing.PlusLaws4D | Sources/AdventOfCode/Indexing.swift:124-149 | `+` is commutative and associative, `zero` is its unit, `unitMinus + unitPlus == zero` |
| Indexing.IndicesBetweenSpec4D | Sources/AdventOfCode/Indexing.swift:130-142 | `indicesBetween` holds exactly the box, each point once, `x` fastest and `zz` slowest, with the product count |
| Indexing.ContainsSpec4D | Sources/AdventOfCode/Indexing/IndexingRange.swift:20-23 | `contains` is the axis-wise bound test and agrees with `indicesInRange` |
| Indexing.NeighborOffsetsCount4D | Sources/AdventOfCode/Indexing.swift:124-128 | there are 80 neighbour offsets |
| Indexing.NeighborOffsetsDistinct4D | Sources/AdventOfCode/Indexing.swift:124-128 | the neighbour offsets are distinct |
| Indexing.NeighborOffsetsMembers4D | Sources/AdventOfCode/Indexing.swift:124-128 | an offset is a neighbour offset iff it is non-zero with each component in {-1, 0, 1} |
| IndexingRanges.Zip | Sources/AdventOfCode/Indexing/IndexingRange.swift:21-22 | `zip` pairs equal positions and stops at the shorter sequence |
| IndexingRanges.ContainsAxisWise | Sources/AdventOfCode/Indexing/IndexingRange.swift:20-23 | with equally long component vectors, `contains` holds iff every axis lies between the bounds |
| IntLocs.AddAssign | Sources/AdventOfCode/utils/IntLoc.swift:26-28 | after `lhs += rhs`, `lhs` is `lhs + rhs` |
| IntLocs.PlusLaws | Sources/AdventOfCode/utils/IntLoc.swift:21-24 | `+` is commutative and associative with unit (0, 0) |
| CharGrids.SplitLinesSpec | Sources/AdventOfCode/utils/CharGrid.swift:22-24 | the lines are non-empty, hold no newline, and together hold every other character in order |
| CharGrids.CharGrid.At | Sources/AdventOfCode/utils/CharGrid.swift:26-28 | `self[x, y]` is a character of row `y` |
| CharGrids.CharGrid.AtLoc | Sources/AdventOfCode/utils/CharGrid.swift:30-32 | `self[loc] == self[loc.x, loc.y]` |
| CharGrids.FromLines | Sources/AdventOfCode/utils/CharGrid.swift:16-20 | `rows` counts the lines and `cols` is the first line's length; needs a line |
| CharGrids.FromStringSpec | Sources/AdventOfCode/utils/CharGrid.swift:22-24 | a grid read from text has one row per non-empty line and keeps all non-newline characters |
| SetToggle.Toggle | Sources/AdventOfCode/utils/Set+.swift:11-17 | `toggle(e)` flips the membership of `e` and of nothing else |
| SetToggle.ToggleTwice | Sources/AdventOfCode/utils/Set+.swift:11-17 | toggling twice restores the set |
| SetToggle.ToggleAll | Sources/AdventOfCode/utils/Set+.swift:19-21 | an element ends up flipped iff it occurs an odd number of times in the list |
| ModuloUtils.Rem | Sources/AdventOfCode/ModuloUtils.swift:17 | Swift's `%` keeps the sign of the dividend and is smaller than the divisor in magnitude |
| ModuloUtils.ComputeNumberAtLeast | Sources/AdventOfCode/ModuloUtils.swift:11-23 | 0 for `mod == 0`; otherwise at least `atLeast`, congruent to `d`, and below `atLeast + mod` when `0 <= d < mod` |
| ModuloUtils.NumberAtLeastSpec | Sources/AdventOfCode/ModuloUtils.swift:11-23 | for `atLeast >= 0`, `mod > 0`, `d >= 0`: at least `atLeast`, congruent to `d`, and for `d < mod` the least such number |
| ModuloUtils.NumberAtLeastShape | Sources/AdventOfCode/ModuloUtils.swift:17-20 | the result is `k * mod + d` with `k * mod + d - mod < atLeast` |
| ModuloUtils.NumberAtLeastExamples | Tests/AdventOfCodeTests/ModuloUtilsTests.swift:15-21 | the unit-test table: 0, 1, 2, 101, 115 |
| Seats.PlaneRange.Only | Sources/AdventOfCode/SeatFinder.swift:13 | `only` is the bound exactly when the range holds one seat, `nil` otherwise |
| Seats.PlaneRange.Mid | Sources/AdventOfCode/SeatFinder.swift:16 | `mid` is quotient and remainder of `lowerBound + upperBound` by 2, truncating toward zero (remainder takes the sign of the sum) |
| Seats.DirectionOf | Sources/AdventOfCode/SeatFinder.swift:58 | `chDirMap` knows exactly the letters F, B, L and R |
| Seats.SeatOf | Sources/AdventOfCode/SeatFinder.swift:36-43 | `seat` exists exactly when both row and column ranges are narrowed to one value, and is that row and column |
| Seats.SeatFinder.constructor | Sources/AdventOfCode/SeatFinder.swift:45-46 | a fresh finder spans rows 0...127 and columns 0...7 |
| Seats.SeatFinder.Move | Sources/AdventOfCode/SeatFinder.swift:49-56 | F/B halve the rows (lower/higher half), L/R halve the columns; the other range is kept |
| Seats.SeatFinder.MoveLetter | Sources/AdventOfCode/SeatFinder.swift:59 | moving by a letter is moving by its mapped direction |
| Seats.SeatFinder.CurrentSeat | Sources/AdventOfCode/SeatFinder.swift:36-43 | the finder's `seat` is the seat read off its current ranges |
| Seats.FindSeat | Sources/AdventOfCode/SeatFinder.swift:61-63 | `seat(for:)` folds `move` over the ticket's letters from a fresh finder and reads the seat |
| Seats.BisectingInside | Sources/AdventOfCode/SeatFinder.swift:18-23 | a bisected non-negative range is a sub-range of the original |
| Seats.BisectingSingleton | Sources/AdventOfCode/SeatFinder.swift:18-23 | bisecting a one-seat range leaves it unchanged |
| Seats.BisectingHalves | Sources/AdventOfCode/SeatFinder.swift:18-23 | a block of 2^k seats splits into its lower and upper 2^(k-1) seats |
| Seats.WalkSplits | Sources/AdventOfCode/SeatFinder.swift:49-56 | on a ticket the row range only follows F/B and the column range only follows L/R |
| Seats.RowWalkPrefix | Sources/AdventOfCode/SeatFinder.swift:49-56 | after the F/B prefix `p` of a 2^k block, the rows are the block numbered by `p` read as binary (F=0, B=1) |
| Seats.ColWalkPrefix | Sources/AdventOfCode/SeatFinder.swift:49-56 | likewise for the L/R letters on the columns (L=0, R=1) |
| Seats.RowWalkFull | Sources/AdventOfCode/SeatFinder.swift:49-56 | a full F/B walk narrows 2^n rows to the single row given by the letters in binary |
| Seats.ColWalkFull | Sources/AdventOfCode/SeatFinder.swift:49-56 | a full L/R walk narrows 2^n columns to the single column given by the letters in binary |
| Seats.BoardingPassSeat | Sources/AdventOfCode/SeatFinder.swift:61-63 | a 7+3 letter boarding pass finds the seat whose row is the first 7 letters in binary and whose column is the last 3; the seat id is all ten letters in binary |
| Seats.ShortTicketHasNoSeat | Sources/AdventOfCode/SeatFinder.swift:36-43 | a ticket without column letters leaves 8 columns open, so it has no seat |
| Seats.Example1 | Tests/AdventOfCodeTests/Day5Tests.swift:17 | FBFBBFFRLR is row 44, seat 5, seat id 357 |
| Seats.Example2 | Tests/AdventOfCodeTests/Day5Tests.swift:18 | BFFFBBFRRR is row 70, seat 7, seat id 567 |
| Seats.Example3 | Tests/AdventOfCodeTests/Day5Tests.swift:19 | FFFBBBFRRR is row 14, seat 7, seat id 119 |
| Seats.Example4 | Tests/AdventOfCodeTests/Day5Tests.swift:20 | BBFFBBFRLL is row 102, seat 4, seat id 820 |
| SetSimplifier.UniquifySingles | Sources/AdventOfCode/SetSimplifier.swift:27-40 | the loop subtracts each singleton in turn from every set still larger than one, giving one pass of the specification function |
| SetSimplifier.PrunedSpec | Sources/AdventOfCode/SetSimplifier.swift:33-36 | pruning by singletons only removes elements, leaves sets of size at most one alone and never empties a set |
| SetSimplifier.UniquifiedSinglesSpec | Sources/AdventOfCode/SetSimplifier.swift:27-40 | one pass keeps the array length, shrinks each set, keeps singletons and empties as they are, and empties nothing |
| SetSimplifier.TotalSizeShrinks | Sources/AdventOfCode/SetSimplifier.swift:20-22 | a pass that changes anything strictly lowers the total size, so the repeat loop ends |
| SetSimplifier.Uniqueify | Sources/AdventOfCode/SetSimplifier.swift:13-25 | `uniqueify` returns what repeated passes of `uniquifySingles` reach when a pass first changes nothing; that result is a fixed point of the pass whose sets are subsets of the input, keep singletons and never become empty; an input already fixed comes back unchanged |
| SetSimplifier.Examples | Tests/AdventOfCodeTests/SetSimplifierTests.swift:18-28 | two different singletons stay; a singleton strips its element from a larger set |
| SetSimplifier.NoSinglesNoChange | Tests/AdventOfCodeTests/SetSimplifierTests.swift:30-38 | three sets of size at least two have no singleton to propagate and come back unchanged |
| SetSimplifier.UniqueifyExamples | Tests/AdventOfCodeTests/SetSimplifierTests.swift:18-28 | `uniqueify` returns `[{test}, {zest}]` unchanged and turns `[{test}, {test, zest}]` into `[{test}, {zest}]` |
| SetSimplifier.TwosAndAThreeUnchanged | Tests/AdventOfCodeTests/SetSimplifierTests.swift:30-38 | `uniqueify` returns `[{test, zest}, {test, zest}, {test, zest, nest}]` unchanged |
| ColoredBags.Contents.Bags | Sources/AdventOfCode/ColoredBags.swift:30-37 | `bags` is `nil` for "no other bags" and otherwise exactly the bags named in the counts |
| ColoredBags.ConstraintsFrom | Sources/AdventOfCode/ColoredBags.swift:58-63 | `constraintsFrom(_:containing:)` keeps exactly the rules whose contents mention the bag, and no more rules than given |
| ColoredBags.ConstraintsFromOrder | Sources/AdventOfCode/ColoredBags.swift:58-63 | the kept rules come in their given order: a single rule is kept exactly when it mentions the bag, and the result on a concatenation is the concatenation of the results |
| ColoredBags.DirectlyContains | Sources/AdventOfCode/ColoredBags.swift:75-78 | the `directlyContains` map has an entry for exactly the bags that head a rule |
| ColoredBags.DirectlyContainsLast | Sources/AdventOfCode/ColoredBags.swift:75-78 | a bag's entry is the content set of its last rule (later rules overwrite earlier ones) |
| ColoredBags.ContainedBy | Sources/AdventOfCode/ColoredBags.swift:81-86 | the `containedBy` loop builds exactly the inverse relation: `b` lists `c` iff `c` directly contains `b` |
| ColoredBags.CanContainsForReach | Sources/AdventOfCode/ColoredBags.swift:93-100 | `canContainsFor(bag)` is exactly the set of bags reachable from `bag` by one or more "contained by" steps |
| ColoredBags.PathTo | Sources/AdventOfCode/ColoredBags.swift:93-100 | every bag `canContainsFor` returns ends a "contained by" path from the bag |
| ColoredBags.PathIn | Sources/AdventOfCode/ColoredBags.swift:93-100 | the end of every "contained by" path from the bag is in `canContainsFor` |
| ColoredBags.ConstraintFor | Sources/AdventOfCode/ColoredBags.swift:89-91 | `constraintFor` finds a rule exactly when one is headed by the bag, and the rule it gives is headed by the bag |
| ColoredBags.ConstraintForFirst | Sources/AdventOfCode/ColoredBags.swift:89-91 | with several rules for a bag, `constraintFor` gives the first |
| ColoredBags.MustContainUnfold | Sources/AdventOfCode/ColoredBags.swift:102-114 | `mustContain` of a bag with counts is the sum over its counts of `count * (1 + mustContain(inner))` |
| ColoredBags.CountsTotalPair | Sources/AdventOfCode/ColoredBags.swift:111-113 | the `map`/`reduce(0, +)` over two counts adds the two weighted terms |
| ColoredBags.MustContainCountsInside | Sources/AdventOfCode/ColoredBags.swift:102-114 | `mustContain(bag)` equals the number of bags in the fully unpacked contents of the bag |
| ColoredBags.CountsTotalCountsInside | Sources/AdventOfCode/ColoredBags.swift:111-113 | the sum over a list of counts equals the number of bags those counts unpack to |
| ColoredBags.BagChecker.constructor | Sources/AdventOfCode/ColoredBags.swift:72-87 | `init` keeps the rules, builds `directlyContains` from them and `containedBy` as its inverse |
| ColoredBagsExample.ExampleCountable | Tests/AdventOfCodeTests/Days/Day7Tests.swift:17-27 | every rule of the example has a rule for each bag it holds, and holds only lower-ranked bags, so `mustContain` terminates on it |
| ColoredBagsExample.MustContainLeaves | Tests/AdventOfCodeTests/Days/Day7Tests.swift:25-26 | faded blue and dotted black hold nothing |
| ColoredBagsExample.MustContainDarkOlive | Tests/AdventOfCodeTests/Days/Day7Tests.swift:23 | dark olive holds 3 + 4 = 7 bags |
| ColoredBagsExample.MustContainVibrantPlum | Tests/AdventOfCodeTests/Days/Day7Tests.swift:24 | vibrant plum holds 5 + 6 = 11 bags |
| ColoredBagsExample.ShinyGoldMustContain32 | Tests/AdventOfCodeTests/Days/Day7Tests.swift:81-88 | shiny gold must contain 32 bags |
| LinkedLists.ListNode.constructor | Sources/AdventOfCode/LinkedList/ListNode.swift:14-20 | a node holds the given value and successor |
| LinkedLists.ListNode.Last | Sources/AdventOfCode/LinkedList/ListNode.swift:21-27 | `last` walks to the final node of the chain, the one whose `next` is nil |
| LinkedLists.ListNode.NextK | Sources/AdventOfCode/LinkedList/ListNode.swift:29-34 | `next(k)` is the k-th node of the chain (the node itself for 0), nil past the end or for a negative `k` |
| LinkedLists.NodesEqual | Sources/AdventOfCode/LinkedList/ListNode.swift:38-40 | node `==` compares values all the way down: two nodes are equal iff their chains hold the same values |
| LinkedLists.NodesEqualIsIdentityInChain | Sources/AdventOfCode/LinkedList/ListNode.swift:38-40 | within one chain two nodes are `==` only when they are the same node, since their suffixes differ in length |
| LinkedLists.NodeLess | Sources/AdventOfCode/LinkedList/ListNode.swift:44-46 | `<` on nodes compares their values only |
| LinkedLists.ChainUnique | Sources/AdventOfCode/LinkedList/ListNode.swift:21-34 | the chain of nodes reached from a node is unique |
| LinkedLists.LinkedList.FromHead | Sources/AdventOfCode/LinkedList/LinkedList.swift:17-20 | `init(head:)` holds the chain from `head` and sets `tail` to its last node |
| LinkedLists.LinkedList.Empty | Sources/AdventOfCode/LinkedList/LinkedList.swift:39-41 | `empty` holds no nodes |
| LinkedLists.LinkedList.FromValues | Sources/AdventOfCode/LinkedList/LinkedList.swift:34-37 | `init(values:)` holds exactly the given values, in order, in new nodes |
| LinkedLists.LinkedList.IsEmpty | Sources/AdventOfCode/LinkedList/LinkedList.swift:22 | `isEmpty` iff the list holds no values |
| LinkedLists.LinkedList.First | Sources/AdventOfCode/LinkedList/LinkedList.swift:23 | `first` is nil iff the list is empty, otherwise the first node, carrying the first value |
| LinkedLists.LinkedList.Last | Sources/AdventOfCode/LinkedList/LinkedList.swift:24 | `last` is the stored tail, which is the last node whenever the tail is up to date |
| LinkedLists.LinkedList.FindNode | Sources/AdventOfCode/LinkedList/LinkedList.swift:45-58 | `findNode(where:)` returns the first node whose value passes, nil when none does |
| LinkedLists.LinkedList.FindNodeBefore | Sources/AdventOfCode/LinkedList/LinkedList.swift:60-75 | `findNodeBefore` returns the node before the first node `==` to the given one (nil for the head); for a member node, the node right before it |
| LinkedLists.LinkedList.ScanBefore | Sources/AdventOfCode/LinkedList/LinkedList.swift:66-74 | the scan finds the node whose successor's chain holds the same values as the given node's, if any |
| LinkedLists.LinkedList.MemberMatches | Sources/AdventOfCode/LinkedList/LinkedList.swift:60-75 | a member node's chain is the list's suffix from that node |
| LinkedLists.LinkedList.Push | Sources/AdventOfCode/LinkedList/LinkedList.swift:79-84 | `push` puts a new node with the value in front and sets `tail` only when it was nil |
| LinkedLists.LinkedList.Pop | Sources/AdventOfCode/LinkedList/LinkedList.swift:86-93 | `pop` is nil on an empty list; otherwise it removes and returns the first value, clearing `tail` when the list becomes empty |
| LinkedLists.LinkedList.Append | Sources/AdventOfCode/LinkedList/LinkedList.swift:95-104 | `append` links a new node after the stored tail (or makes it the head) and makes it the tail; a stale tail inside the list cuts off what follows it, and a stale tail outside the list gets the new node while the list stays as it was |
| LinkedLists.LinkedList.Insert | Sources/AdventOfCode/LinkedList/LinkedList.swift:106-121 | `insert(list, after:)` splices the other list's nodes after the anchor (or at the front); an empty list cuts the receiver off after the anchor; `tail` is updated only when it was nil |
| LinkedLists.LinkedList.InsertValues | Sources/AdventOfCode/LinkedList/LinkedList.swift:123-127 | `insert(values)` pushes the values in reverse, so they end up in front in their own order |
| LinkedLists.LinkedList.RemoveFirst | Sources/AdventOfCode/LinkedList/LinkedList.swift:129-156 | `removeFirst(k, after:)` cuts out the run of up to `k` nodes after the anchor and returns it as a new list; nothing for `k <= 0`; `tail` becomes `head` when the run reached the end or ended at the tail |
| LinkedLists.LinkedList.Detach | Sources/AdventOfCode/LinkedList/LinkedList.swift:134-153 | the unlinking part of `removeFirst` leaves the rest of the list and returns the taken run as a chain |
| LinkedLists.LinkedList.CircularRotate | Sources/AdventOfCode/LinkedList/LinkedList.swift:160-179 | `circularRotate(to:)` is true and changes nothing when the node is the head; false and changes nothing when no node before it matches; otherwise the node's chain comes first followed by the old front, the tail being the node before; for a member node it is the rotation to that node |
| LinkedLists.LinkedList.RotateAfter | Sources/AdventOfCode/LinkedList/LinkedList.swift:170-177 | the relinking part of `circularRotate`: the node's chain followed by the front up to `before` |
| LinkedLists.LinkedList.MakeIterator | Sources/AdventOfCode/LinkedList/LinkedList.swift:26-28 | the iterator starts at the head and will visit exactly the list's nodes |
| LinkedLists.LinkedList.AsArray | Sources/AdventOfCode/LinkedList/LinkedList.swift:30 | `asArray` is the list's values in order |
| LinkedLists.ListIterator.constructor | Sources/AdventOfCode/LinkedList/ListIterator.swift:14-19 | the iterator starts at `current`, or at the list's first node when `current` is nil |
| LinkedLists.ListIterator.Next | Sources/AdventOfCode/LinkedList/ListIterator.swift:21-24 | `next()` returns the current node and advances to its successor; nil once the nodes run out |
| LinkedLists.ValuesInserted | Sources/AdventOfCode/LinkedList/LinkedList.swift:106-121 | splicing nodes splices their values |
| LinkedLists.ValuesRemoved | Sources/AdventOfCode/LinkedList/LinkedList.swift:129-156 | removing a run of nodes removes the run of values |
| LinkedLists.ValuesTaken | Sources/AdventOfCode/LinkedList/LinkedList.swift:129-156 | the returned run of nodes holds the run of values |
| LinkedLists.ValuesRotated | Sources/AdventOfCode/LinkedList/LinkedList.swift:160-179 | rotating the nodes rotates the values |
| LinkedLists.InsertedChain | Sources/AdventOfCode/LinkedList/LinkedList.swift:112-116 | after the two pointer writes of `insert`, the nodes form one well-formed chain |
| LinkedLists.RemovedChain | Sources/AdventOfCode/LinkedList/LinkedList.swift:142-146 | after the anchor is pointed past the run, the remaining nodes form one chain |
| LinkedLists.TakenChain | Sources/AdventOfCode/LinkedList/LinkedList.swift:149 | once the last taken node's `next` is cleared, the run is a chain of its own |
| LinkedLists.RotatedChain | Sources/AdventOfCode/LinkedList/LinkedList.swift:171-175 | once the node before is cut and the node's last points at the old head, the nodes form one chain |
| LinkedLists.RemovedTail | Sources/AdventOfCode/LinkedList/LinkedList.swift:151-153 | the `tail` rule of `removeFirst` picks the real last node whenever the anchor is the head or the run stops short of the end |
| ListSpec.FirstIndexWhere | Sources/AdventOfCode/LinkedList/LinkedList.swift:45-58 | the first position whose element passes, or the length when none does |
| ListSpec.RemovedTakenPartition | Sources/AdventOfCode/LinkedList/LinkedList.swift:129-156 | what `removeFirst` leaves and what it returns together are the original elements; the part before the anchor is untouched |
| ListSpec.RemovedTakenDisjoint | Sources/AdventOfCode/LinkedList/LinkedList.swift:129-156 | on distinct nodes the returned run and the rest share no node |
| ListSpec.RemoveThenInsertRestores | Sources/AdventOfCode/LinkedList/LinkedList.swift:106-156 | inserting the removed run back at the same anchor restores the list exactly when something was removed or the anchor is at the end |
| ListSpec.SplicedMultiset | Sources/AdventOfCode/LinkedList/LinkedList.swift:106-121 | a non-empty splice adds exactly the inserted elements |
| ListSpec.RotatedLaws | Sources/AdventOfCode/LinkedList/LinkedList.swift:160-179 | rotating keeps the elements, puts the chosen one first and is undone by rotating by the rest |
| CrabCups.FirstMaxSpec | Tests/AdventOfCodeTests/Day23Tests.swift:87-94 | `filter(...).max()` over the cups picks the first cup with the largest label among those passing, nil when none passes |
| CrabCups.DestinationIndex | Tests/AdventOfCodeTests/Day23Tests.swift:86-95 | `pickDesination` always finds a cup in a non-empty circle |
| CrabCups.DestinationSpec | Tests/AdventOfCodeTests/Day23Tests.swift:86-95 | the destination is the largest label below the current cup, or the largest label of all when none is lower |
| CrabCups.DestinationUnique | Tests/AdventOfCodeTests/Day23Tests.swift:86-95 | that description picks a single position |
| CrabCups.MoveSpec | Tests/AdventOfCodeTests/Day23Tests.swift:76-84 | a move keeps the number of cups |
| CrabCups.MovePermutes | Tests/AdventOfCodeTests/Day23Tests.swift:76-84 | a move only rearranges the cups |
| CrabCups.MoveCurrentGoesLast | Tests/AdventOfCodeTests/Day23Tests.swift:83 | after a move the old current cup is last and the cup after the three picked up is the new current |
| CrabCups.DestinationNotPickedUp | Tests/AdventOfCodeTests/Day23Tests.swift:80-81 | with distinct labels the destination is never one of the three picked-up cups, and is the largest lower label left when there is one |
| CrabCups.MovePlacesThreeAfterDestination | Tests/AdventOfCodeTests/Day23Tests.swift:80-82 | the three picked-up cups sit, in order, right after the destination |
| CrabCups.Moves | Tests/AdventOfCodeTests/Day23Tests.swift:33-35 | repeated moves keep the number of cups |
| CrabCups.MoveTo | Tests/AdventOfCodeTests/Day23Tests.swift:76-84 | a move is: remove the three after the current cup, insert them after the destination, rotate by one |
| CrabCups.CrabWalk.constructor | Tests/AdventOfCodeTests/Day23Tests.swift:24 | the walk starts on a new list of the given labels |
| CrabCups.CrabWalk.PickDestination | Tests/AdventOfCodeTests/Day23Tests.swift:86-95 | `pickDesination` returns the node at the destination position |
| CrabCups.CrabWalk.Move | Tests/AdventOfCodeTests/Day23Tests.swift:76-84 | `move()` on the linked list leaves exactly the labels of one move |
| CrabCups.CrabWalk.RotateToNext | Tests/AdventOfCodeTests/Day23Tests.swift:83 | `circularRotate(to: current.next!)` rotates the nodes by one |
| CrabCups.CrabWalk.PickUpAndPutBack | Tests/AdventOfCodeTests/Day23Tests.swift:80-82 | removing the three and inserting them after the destination gives the move before its rotation |
| CrabCups.CrabWalk.PutBack | Tests/AdventOfCodeTests/Day23Tests.swift:81-82 | the three nodes are inserted right after the destination |
| CrabCups.PutBackShape | Tests/AdventOfCodeTests/Day23Tests.swift:80-82 | re-inserting the three keeps the length, the current cup first and only the original cups |
| CrabCups.MoveOnNodes | Tests/AdventOfCodeTests/Day23Tests.swift:76-84 | the node-level steps of `move()` read back as the label-level move |
| CrabCups.MaxNode | Tests/AdventOfCodeTests/Day23Tests.swift:87-91 | `max()` over the nodes (ordered by label) is the node of the first largest label |
| CrabCupsExample.Move1 | Tests/AdventOfCodeTests/Day23Tests.swift:22-28 | one move of 389125467 gives 289154673 |
| CrabCupsExample.TenMoves | Tests/AdventOfCodeTests/Day23Tests.swift:30-37 | ten moves of the example give 837419265 |
| CrabCupsExample.RotateToOne | Tests/AdventOfCodeTests/Day23Tests.swift:39-40 | rotating that circle to cup 1 reads 192658374 |
| Navigation.DirectionAt | Tests/AdventOfCodeTests/Day12Tests.swift:185-186 | position `i` of `allCases` is the direction whose index is `i` |
| Navigation.Rotated | Tests/AdventOfCodeTests/Day12Tests.swift:188-194 | `rotated(degrees)` moves the heading `degrees / 90` quarter turns clockwise through N, E, S, W (modulo 4); it needs a multiple of 90 |
| Navigation.RotatedBack | Tests/AdventOfCodeTests/Day12Tests.swift:188-194 | turning by an angle and back by its negative restores the heading |
| Navigation.Moved | Tests/AdventOfCodeTests/Day12Tests.swift:131-142 | north and east add to `y` and `x`, south and west subtract |
| Navigation.MovedBack | Tests/AdventOfCodeTests/Day12Tests.swift:131-142 | moving back the same amount returns to the start, and a move covers `abs(value)` along one axis |
| Navigation.Move | Tests/AdventOfCodeTests/Day12Tests.swift:131-142 | `move` changes only the ship's location, by one axis step |
| Navigation.MoveWaypoint | Tests/AdventOfCodeTests/Day12Tests.swift:144-155 | `moveWaypoint` changes only the waypoint |
| Navigation.RotateRightNAdd | Tests/AdventOfCodeTests/Day12Tests.swift:161-165 | `a + b` quarter turns are `a` turns followed by `b` turns |
| Navigation.RotateRightNMod | Tests/AdventOfCodeTests/Day12Tests.swift:161-165 | four quarter turns give the waypoint back, and turning keeps its distance from the ship |
| Navigation.RotateWaypoint | Tests/AdventOfCodeTests/Day12Tests.swift:157-166 | `rotateWaypoint` makes `(degrees + 360) / 90` clockwise quarter turns of the waypoint, which is the same as `degrees / 90` turns modulo 4 |
| Navigation.MoveTowardWaypoint | Tests/AdventOfCodeTests/Day12Tests.swift:168-172 | the ship moves by `value` times the waypoint; heading and waypoint stay |
| Navigation.StepChangesOneThing | Tests/AdventOfCodeTests/Day12Tests.swift:87-104 | in part 1 the waypoint never changes, L and R only turn the ship, and every other action only moves it |
| Navigation.FollowInstruction | Tests/AdventOfCodeTests/Day12Tests.swift:87-104 | `followInstruction` is the part 1 step |
| Navigation.FollowInstructions | Tests/AdventOfCodeTests/Day12Tests.swift:81-85 | the loop applies the part 1 step to each instruction in order; it needs only that each turn be one `rotated` accepts for the heading the ship has when it reaches that turn |
| Navigation.BoundedTurnsRunnable | Tests/AdventOfCodeTests/Day12Tests.swift:188-194 | turns that are multiples of 90 between -360 and 360 can be followed from any heading |
| Navigation.Step2ChangesOneThing | Tests/AdventOfCodeTests/Day12Tests.swift:112-129 | in part 2 the heading never changes, only F moves the ship, and F leaves the waypoint |
| Navigation.FollowInstruction2 | Tests/AdventOfCodeTests/Day12Tests.swift:112-129 | `followInstruction2` is the part 2 step |
| Navigation.FollowInstructions2 | Tests/AdventOfCodeTests/Day12Tests.swift:106-110 | the loop applies the part 2 step to each instruction in order; it needs only multiples of 90, with L at most 360 and R at least -360, where `rotateWaypoint` would trap |
| Navigation.ExampleRun | Tests/AdventOfCodeTests/Day12Tests.swift:35-42 | the example's part 1 ends at (17, -8), distance 25 |
| Navigation.ExampleRun2 | Tests/AdventOfCodeTests/Day12Tests.swift:53-60 | the example's part 2 ends at (214, -72), distance 286 |
| Combat.RoundKeepsCards | Tests/AdventOfCodeTests/Day22Tests.swift:75-83 | a round keeps the players' names, the number of cards and the multiset of all cards |
| Combat.WinnerOf | Tests/AdventOfCodeTests/Day22Tests.swift:85-91 | player 2 wins iff player 1's deck is empty; player 1 wins iff only player 2's deck is empty; otherwise no winner yet |
| Combat.PlayRound | Tests/AdventOfCodeTests/Day22Tests.swift:75-92 | `playRound` gives the next round's decks and the winner read off them |
| Combat.Final | Tests/AdventOfCodeTests/Day22Tests.swift:67-73 | the decks at the end of a game that ends have a winner and hold the cards the game started with |
| Combat.PlayUntilWinner | Tests/AdventOfCodeTests/Day22Tests.swift:67-73 | `playUntilWinner` stops at the first round with a winner; the loser's deck is empty and the winner holds every card of the game |
| Combat.FinalStep | Tests/AdventOfCodeTests/Day22Tests.swift:67-73 | a game that ends can play a round, and ends with that round or one round later than the game that round leaves |
| Combat.FinalOutcome | Tests/AdventOfCodeTests/Day22Tests.swift:67-91 | whoever wins holds every card and the loser none |
| Combat.WeightedSumSnoc | Tests/AdventOfCodeTests/Day22Tests.swift:99-105 | one more card at the end adds that card times its weight |
| Combat.ScoreTopDown | Tests/AdventOfCodeTests/Day22Tests.swift:99-105 | `score` is the sum of each card times its position counted from the bottom; an empty deck scores 0 |
| Combat.TopDownStep | Tests/AdventOfCodeTests/Day22Tests.swift:99-105 | the `reversed().enumerated()` sum equals the top-down weighted sum |
| CombatExample.Round1 | Tests/AdventOfCodeTests/Day22Tests.swift:75-83 | the first round of the example gives player 1 the 9 and the 5 |
| CombatExample.Ends0 | Tests/AdventOfCodeTests/Day22Tests.swift:43-46 | the example game ends within 29 rounds with player 1's deck empty |
| CombatExample.ExampleScores | Tests/AdventOfCodeTests/Day22Tests.swift:43-49 | player 2 wins with a score of 306 and player 1 scores 0 |
| MemoryGame.LastIndex | Tests/AdventOfCodeTests/Days/Day15Tests.swift:77-89 | the latest position of a number exists iff the number was spoken, holds it, and nothing after it repeats it |
| MemoryGame.LastIndexSnoc | Tests/AdventOfCodeTests/Days/Day15Tests.swift:91-93 | speaking `x` makes its latest position the newest turn and leaves every other number's latest position unchanged |
| MemoryGame.NextSpoken | Tests/AdventOfCodeTests/Days/Day15Tests.swift:95-106 | the next number is the next starting number while any is left; after them a non-zero answer is the gap back to the last number's previous speaking with no speaking in between, and 0 means the last number was new |
| MemoryGame.Spoken | Tests/AdventOfCodeTests/Days/Day15Tests.swift:88-107 | the first `n` numbers of the game are `n` numbers |
| MemoryGame.SpokenPrefix | Tests/AdventOfCodeTests/Days/Day15Tests.swift:88-107 | a longer game extends a shorter one: the game is one sequence |
| MemoryGame.StartingNumbersFirst | Tests/AdventOfCodeTests/Days/Day15Tests.swift:97-99 | the first turns speak the starting numbers, in order |
| MemoryGame.NewMemory | Tests/AdventOfCodeTests/Days/Day15Tests.swift:74-78 | a fresh memory records the empty game |
| MemoryGame.Speak | Tests/AdventOfCodeTests/Days/Day15Tests.swift:82-86 | `speak(n)` returns `n` and changes only `lastSpoken`, to `n` |
| MemoryGame.TakeTurn | Tests/AdventOfCodeTests/Days/Day15Tests.swift:88-107 | `takeTurn` speaks the game's next number, advances `turn` by one and keeps the memory an exact record of the game so far |
| MemoryGame.RecordsStep | Tests/AdventOfCodeTests/Days/Day15Tests.swift:89-95 | recording the last number at the current turn and advancing the turn keeps the memory a record of the longer game |
| MemoryGame.Play | Tests/AdventOfCodeTests/Days/Day15Tests.swift:22-31 | after `turns` calls of `takeTurn` from a fresh memory the last number spoken is turn `turns` of the game, and nothing for 0 turns |
| MemoryGameExample.Turn10 | Tests/AdventOfCodeTests/Days/Day15Tests.swift:22-31 | the example game runs 0, 3, 6, 0, 3, 3, 1, 0, 4, 0 |
| MemoryGameExample.TenthIsZero | Tests/AdventOfCodeTests/Days/Day15Tests.swift:22-31 | the tenth number of the example is 0 |
| Xmas.HasPair2Sum | Tests/AdventOfCodeTests/Days/Day9Tests.swift:148-161 | `hasPair2Sum` is true exactly when some element has a positive partner, different from it, that is also in the set |
| Xmas.AddRemove | Tests/AdventOfCodeTests/Days/Day9Tests.swift:163-166 | `add(a, remove: r)` leaves the set without `r` and with `a`; `r` stays only when it is `a` |
| Xmas.FindInvalids | Tests/AdventOfCodeTests/Days/Day9Tests.swift:109-122 | the loop collects, in order, the numbers after the preamble that are no pair sum of the buffer at their turn |
| Xmas.BufferIsWindow | Tests/AdventOfCodeTests/Days/Day9Tests.swift:112-118 | with distinct numbers and a non-empty preamble, the buffer at index `i` is exactly the `preambleLength` numbers before `i` |
| Xmas.InvalidsSound | Tests/AdventOfCodeTests/Days/Day9Tests.swift:109-122 | everything reported is a number after the preamble that no two numbers of its buffer add up to |
| Xmas.InvalidsComplete | Tests/AdventOfCodeTests/Days/Day9Tests.swift:109-122 | every number after the preamble that is no pair sum of its buffer is reported |
| Xmas.FirstInvalid | Tests/AdventOfCodeTests/Days/Day9Tests.swift:109-122 | the first number reported is the first one that is no pair sum of its buffer |
| Xmas.RangeSumDropFirst | Tests/AdventOfCodeTests/Days/Day9Tests.swift:134-135 | dropping the left number of a range subtracts it from the running sum |
| Xmas.RangeSumMonotone | Tests/AdventOfCodeTests/Days/Day9Tests.swift:129-137 | with no negative number, widening a range never lowers its sum |
| Xmas.FindContiguousSum | Tests/AdventOfCodeTests/Days/Day9Tests.swift:124-144 | `findContiguousSum` returns what the search from the empty range at 0 reaches; a range it reports lies inside the numbers and adds up to the target |
| Xmas.ContiguousSearch | Tests/AdventOfCodeTests/Days/Day9Tests.swift:128-143 | from the range `l ..< r`, the search reports only ranges inside the numbers that add up to the target; once `r` is at the end it reports one exactly when the current range hits the target |
| Xmas.FindContiguousSumComplete | Tests/AdventOfCodeTests/Days/Day9Tests.swift:124-144 | the search that goes on shrinking from the left once the right end is at the last number reports a range that adds up to the target, and reports none exactly when no range does |
| Xmas.ContiguousSumMissedExample | Tests/AdventOfCodeTests/Days/Day9Tests.swift:129-137 | on [1, 5] with target 5 the loop as written stops at 0 ..< 2, over the target, and returns `nil`, though 1 ..< 2 adds up to 5 |
| XmasExample.FirstInvalidIs127 | Tests/AdventOfCodeTests/Days/Day9Tests.swift:64-69 | with a preamble of 5 the first invalid number of the example is 127 |
| XmasExample.ContiguousRun | Tests/AdventOfCodeTests/Days/Day9Tests.swift:78-86 | 15 + 25 + 47 + 40 = 127, the run whose least and greatest numbers are 15 and 47 |
| Adapters.VoltagesOf | Tests/AdventOfCodeTests/Days/Day10Tests.swift:83 | `sorted().reversed() + [0]` is any descending arrangement of the adapters followed by the outlet |
| Adapters.PathsFoldLast | Tests/AdventOfCodeTests/Days/Day10Tests.swift:86-93 | the `reduce(into:)` takes the voltages in order, the last one last |
| Adapters.PathsOutWith | Tests/AdventOfCodeTests/Days/Day10Tests.swift:82-95 | `pathsOutWith` sorts the adapters downwards, appends the outlet, seeds the device 3 above the first with one path and folds the step over the voltages |
| Adapters.ReducePaths | Tests/AdventOfCodeTests/Days/Day10Tests.swift:86-93 | the loop over the voltages computes the fold |
| Adapters.FoldOn | Tests/AdventOfCodeTests/Days/Day10Tests.swift:88-92 | a voltage's entry is the sum of the entries 1, 2 and 3 above it, missing entries counting 0 |
| Adapters.FoldAt | Tests/AdventOfCodeTests/Days/Day10Tests.swift:88-92 | the same, for the voltage at any position of the fold |
| Adapters.Nexts | Tests/AdventOfCodeTests/Days/Day10Tests.swift:213-215 | the next voltages are at most three adapters, each 1 to 3 above `from` |
| Adapters.AboveShrinks | Tests/AdventOfCodeTests/Days/Day10Tests.swift:210-223 | stepping up to a next voltage leaves strictly fewer voltages above, so the recursion ends |
| Adapters.ThroughMembers | Tests/AdventOfCodeTests/Days/Day10Tests.swift:219-222 | the `flatMap` over the next voltages lists exactly `from` followed by an arrangement out of one of them |
| Adapters.ArrangementsStart | Tests/AdventOfCodeTests/Days/Day10Tests.swift:210-223 | every arrangement starts at `from` |
| Adapters.ArrangementsSpec | Tests/AdventOfCodeTests/Days/Day10Tests.swift:210-223 | `findArrangements2` lists exactly the chains from `from` to `to` through the adapters, each step 1 to 3 up |
| Adapters.ArrangementCons | Tests/AdventOfCodeTests/Days/Day10Tests.swift:219-222 | a chain of two or more voltages is an arrangement iff its tail is an arrangement out of its second voltage |
| Adapters.ArrangementNext | Tests/AdventOfCodeTests/Days/Day10Tests.swift:211-217 | an arrangement out of a voltage other than the target goes on to one of its next voltages |
| Adapters.Climbs | Tests/AdventOfCodeTests/Days/Day10Tests.swift:213-215 | the voltages of a chain increase |
| Adapters.ArrangementsCount | Tests/AdventOfCodeTests/Days/Day10Tests.swift:210-223 | the arrangements out of `from` number those out of the voltages 1, 2 and 3 above it added up |
| Adapters.SumCountsAppend | Tests/AdventOfCodeTests/Days/Day10Tests.swift:219-221 | counts over a concatenation add up |
| Adapters.ThroughCount | Tests/AdventOfCodeTests/Days/Day10Tests.swift:219-222 | the `flatMap` lists as many chains as the next voltages have arrangements together |
| Adapters.PathsOutCounts | Tests/AdventOfCodeTests/Days/Day10Tests.swift:82-95 | `pathsOut` maps every adapter and the outlet to the number of its arrangements up to the largest adapter |
| Adapters.FoldResult | Tests/AdventOfCodeTests/Days/Day10Tests.swift:86-93 | folding in a descending chain maps each adapter and the outlet to its count of arrangements |
| Adapters.ArrangementsRecurrence | Tests/AdventOfCodeTests/Days/Day10Tests.swift:210-223 | the arrangement counts are 1 at the top and, below it, the sum of the counts of the adapters 1, 2 and 3 above |
| Adapters.VoltagesChain | Tests/AdventOfCodeTests/Days/Day10Tests.swift:83 | the sorted voltages descend from the largest adapter to the outlet through exactly the adapters |
| Adapters.PathsFoldInvariant | Tests/AdventOfCodeTests/Days/Day10Tests.swift:86-93 | after `k` voltages the fold holds the device with one path and exactly those voltages, each with its count |
| Adapters.FoldStep | Tests/AdventOfCodeTests/Days/Day10Tests.swift:88-92 | one more step of the fold keeps that invariant |
| AdapterChains.PathsOutAgrees | Tests/AdventOfCodeTests/Days/Day10Tests.swift:82-95 | the two answers agree: the paths out of the outlet number the arrangements `findArrangements` lists, which are exactly the chains from 0 to the largest adapter |
| AdapterChains.CommonPrefix | Tests/AdventOfCodeTests/Days/Day10Tests.swift:156-160 | the common prefix is shared, and the lists differ right after it unless one ends |
| AdapterChains.LexLessAt | Tests/AdventOfCodeTests/Days/Day10Tests.swift:157-159 | at the first difference, the order is that of the elements there |
| AdapterChains.LexLessEnd | Tests/AdventOfCodeTests/Days/Day10Tests.swift:161 | when one list runs out before they differ, the shorter comes first |
| AdapterChains.LessThan | Tests/AdventOfCodeTests/Days/Day10Tests.swift:155-162 | `lessThan` is the lexicographic order: a proper prefix or smaller at the first difference |
| AdapterChains.LexLessIrreflexive | Tests/AdventOfCodeTests/Days/Day10Tests.swift:155-162 | no list comes before itself |
| AdapterChains.LexLessTotal | Tests/AdventOfCodeTests/Days/Day10Tests.swift:155-162 | of two different lists one comes first |
| AdapterChains.LexLessTransitive | Tests/AdventOfCodeTests/Days/Day10Tests.swift:155-162 | the order is transitive |
| AdapterChains.Deltas | Tests/AdventOfCodeTests/Days/Day10Tests.swift:123-124 | the deltas are one fewer than the elements, each the gap between neighbours |
| AdapterChains.DeltasSum | Tests/AdventOfCodeTests/Days/Day10Tests.swift:123-124 | the deltas add up to the last element minus the first |
| AdapterChains.DeltasAscending | Tests/AdventOfCodeTests/Days/Day10Tests.swift:123-124 | the deltas of a sorted list are not negative |
| AdapterChains.JoltChainSpan | Tests/AdventOfCodeTests/Days/Day10Tests.swift:122-124 | the sorted chain has two more entries than the adapters, runs from 0 to the largest adapter plus 3, and its non-negative deltas add up to that |
| AdapterChains.SortedEnds | Tests/AdventOfCodeTests/Days/Day10Tests.swift:123 | a sorted permutation starts at the least element and ends at the greatest |
| AdapterChains.DeltaCounts | Tests/AdventOfCodeTests/Days/Day10Tests.swift:125-140 | when every delta is 1, 2 or 3, the counts of each, weighted by the delta, add up to the span |
| AdaptersExample.SimpleExampleCounts | Tests/AdventOfCodeTests/Days/Day10Tests.swift:166-171 | the simple example, in any order, has 8 arrangements and 8 paths out of the outlet |
| AdaptersExample.ExampleCounts | Tests/AdventOfCodeTests/Days/Day10Tests.swift:173-178 | the larger example, in any order, has 19208 arrangements and 19208 paths out of the outlet |
| Tickets.AllRanges | Tests/AdventOfCodeTests/Days/Day16Tests.swift:68 | `allRanges` is both ranges of every rule, rule by rule: twice as many ranges as rules |
| Tickets.Halve | Tests/AdventOfCodeTests/Days/Day16Tests.swift:68 | each position of `allRanges` comes from one rule, as its first or second range |
| Tickets.AllRangesAdmit | Tests/AdventOfCodeTests/Days/Day16Tests.swift:68 | some range of `allRanges` holds a value exactly when some rule admits it through either range |
| Tickets.IsInvalidValueSpec | Tests/AdventOfCodeTests/Days/Day16Tests.swift:113-115 | `isInvalidValue` holds exactly when no rule admits the value |
| Tickets.InvalidTicketValuesSpec | Tests/AdventOfCodeTests/Days/Day16Tests.swift:108-111 | the invalid values are exactly the ticket's values that no rule admits, and there are no more of them than values |
| Tickets.IsInvalidTicketSpec | Tests/AdventOfCodeTests/Days/Day16Tests.swift:104-106 | a ticket is invalid exactly when one of its values is, which is when `invalidTicketValues` is not empty |
| Tickets.ValidTicketsSpec | Tests/AdventOfCodeTests/Days/Day16Tests.swift:99-102 | the valid tickets are exactly the nearby tickets every value of which some rule admits, no more of them than nearby tickets |
| Tickets.NamesAdmittingSpec | Tests/AdventOfCodeTests/Days/Day16Tests.swift:86-93 | a name is in the set exactly when a rule of that name admits the value |
| Tickets.ValidRulesForTicket | Tests/AdventOfCodeTests/Days/Day16Tests.swift:84-95 | `validRulesForTicket` has one set of names per value of the ticket |
| Tickets.ValidRulesForTicketSpec | Tests/AdventOfCodeTests/Days/Day16Tests.swift:84-95 | a name is a candidate at position `k` exactly when a rule of that name admits the value there |
| Tickets.ZipIntersect | Tests/AdventOfCodeTests/Days/Day16Tests.swift:77-80 | `zip` then `intersection` is as long as the shorter list |
| Tickets.ZipIntersectAll | Tests/AdventOfCodeTests/Days/Day16Tests.swift:76-81 | `reduceFirst` of the zip-intersection is no longer than any list and as long as one of them, and holds at `k` exactly the names every list holds at `k` |
| Tickets.ValidRulesForTicketsSpec | Tests/AdventOfCodeTests/Days/Day16Tests.swift:73-82 | `validRulesForTickets` is no longer than any ticket and as long as one; a name is a candidate at `k` exactly when on every ticket a rule of that name admits the value at `k` |
| TicketsExample.ExampleInvalidValues | Tests/AdventOfCodeTests/Days/Day16Tests.swift:191-198 | the example's nearby tickets have the invalid values 4, 55 and 12, which add up to 71 |
| TicketsExample.ExampleValidTickets | Tests/AdventOfCodeTests/Days/Day16Tests.swift:120-124 | only one nearby ticket of the example is valid |
| TicketsExample.ExampleTwoCandidates | Tests/AdventOfCodeTests/Days/Day16Tests.swift:140-143 | in the second example every nearby ticket is valid and the candidates are {row}, {class, row}, {class, row, seat} |
| Allergens.AddFood | Tests/AdventOfCodeTests/Days/Day21Tests.swift:69-77 | folding in a food adds its allergens to the keys and nothing else |
| Allergens.AllergenPossibilitiesSpec | Tests/AdventOfCodeTests/Days/Day21Tests.swift:67-79 | an allergen has possibilities exactly when some food lists it, and its possible ingredients are those common to every food that lists it |
| Allergens.IngredientPossibilitiesFrom | Tests/AdventOfCodeTests/Days/Day21Tests.swift:111-119 | `ingredientPossibilitiesFrom` is the inverse relation: an ingredient may hold an allergen exactly when the allergen may be in the ingredient |
| Allergens.OnlyOf | Sources/AdventOfCode/utils/Collection+.swift:11-17 | `only()` of a one-element set is its element |
| Allergens.Identified | Tests/AdventOfCodeTests/Days/Day21Tests.swift:89-94 | the identified ingredients are exactly those with one candidate allergen, each mapped to it |
| Allergens.Without | Tests/AdventOfCodeTests/Days/Day21Tests.swift:102-105 | clearing the identified allergens removes exactly those keys and keeps the other entries |
| Allergens.Merge | Tests/AdventOfCodeTests/Days/Day21Tests.swift:100 | `merge` on disjoint keys keeps both maps' entries |
| Allergens.RoundShrinks | Tests/AdventOfCodeTests/Days/Day21Tests.swift:86-106 | a round that settles something leaves fewer allergens, settles no ingredient twice, and keeps settled ingredients out of the remaining possibilities |
| Allergens.OnlyCandidate | Tests/AdventOfCodeTests/Days/Day21Tests.swift:87-94 | an ingredient a round settles was a possibility for its allergen, and for that allergen only |
| Allergens.RoundDrops | Tests/AdventOfCodeTests/Days/Day21Tests.swift:96-105 | a round that settles something drops at least one allergen, so the `while true` loop ends |
| Allergens.ReduceAllergenPossibilities | Tests/AdventOfCodeTests/Days/Day21Tests.swift:81-109 | the loop computes the rounds of settling from an empty result |
| Allergens.ReduceFromSpec | Tests/AdventOfCodeTests/Days/Day21Tests.swift:86-106 | the rounds keep what is settled, settle ingredients only with a possible allergen, and stop where no ingredient has a single candidate; every dropped allergen went to some ingredient |
| Allergens.RoundSound | Tests/AdventOfCodeTests/Days/Day21Tests.swift:96-105 | a round gives each ingredient it settles an allergen it may contain, and only narrows the possibilities |
| Allergens.RoundCovers | Tests/AdventOfCodeTests/Days/Day21Tests.swift:100-105 | the allergens a round drops went to the ingredients it settled, which later rounds keep |
| Allergens.ReduceAllergenPossibilitiesSpec | Tests/AdventOfCodeTests/Days/Day21Tests.swift:81-109 | each settled ingredient may contain its allergen, and what is left has nothing more to settle |
| AllergensExample.ExamplePossibilities | Tests/AdventOfCodeTests/Days/Day21Tests.swift:12-27 | the example's foods give dairy {mxmxvkd}, fish {mxmxvkd, sqjhc}, soy {sqjhc, fvjkl} |
| AllergensExample.ExampleSettles | Tests/AdventOfCodeTests/Days/Day21Tests.swift:28 | the rounds settle fvjkl with soy, sqjhc with fish and mxmxvkd with dairy |
| AllergensExample.ExampleSolution | Tests/AdventOfCodeTests/Days/Day21Tests.swift:27-28 | the example's foods reduce to those three ingredients |
| AllergensExample.ExampleAllergenFree | Tests/AdventOfCodeTests/Days/Day21Tests.swift:30-34 | the ingredients without an allergen occur 5 times |
| AllergensExample.ExampleDangerous | Tests/AdventOfCodeTests/Days/Day21Tests.swift:36-38 | sorted by allergen the ingredients are mxmxvkd, sqjhc, fvjkl, joined "mxmxvkd,sqjhc,fvjkl" |
| Buses.BusId | Tests/AdventOfCodeTests/Days/Day13Tests.swift:143-148 | `id` is present exactly for a bus in service |
| Buses.NextDepartureAfter | Tests/AdventOfCodeTests/Days/Day13Tests.swift:150-155 | `nil` exactly for a bus out of service; otherwise, for a positive number and a non-negative time, the first multiple of the number at or after the time |
| Buses.RemZero | Tests/AdventOfCodeTests/Days/Day13Tests.swift:129 | Swift's `%` is zero exactly when the divisor divides the number |
| Buses.SatisfiesSpec | Tests/AdventOfCodeTests/Days/Day13Tests.swift:124-130 | `departureSatifiesAllOffsets` holds exactly when every bus number divides the departure plus its offset |
| Buses.LargestIdIndex | Tests/AdventOfCodeTests/Days/Day13Tests.swift:109-112 | the first of the list sorted by number and reversed has the largest number, and is the last of those sharing it |
| Buses.FirstOffsetDeparture | Tests/AdventOfCodeTests/Days/Day13Tests.swift:108-122 | for any non-zero bus numbers, the loop returns the first candidate, counting up from the largest number minus its offset in steps of that number, at which every bus leaves at its offset |
| Buses.NextBusExample | Tests/AdventOfCodeTests/Days/Day13Tests.swift:28-43 | after 939, bus 59 leaves first, at 944, and 59 times the 5-minute wait is 295 |
| Buses.OffsetExample | Tests/AdventOfCodeTests/Days/Day13Tests.swift:62-72 | at 1068781 the example's buses leave at their offsets, and the search steps by bus 59 |
| TileMatching.Reversed | Tests/AdventOfCodeTests/Day20Tests.swift:86 | the reversal has the same length and holds the edge's characters back to front |
| TileMatching.ReversedTwice | Tests/AdventOfCodeTests/Day20Tests.swift:99 | reversing an edge twice gives it back |
| TileMatching.Ref | Tests/AdventOfCodeTests/Day20Tests.swift:96-100 | an edge's signature is the exclusive or of the hashes of the edge and of its reversal |
| TileMatching.RefReversed | Tests/AdventOfCodeTests/Day20Tests.swift:96-100 | an edge read either way round has the same reference, so references do not depend on orientation |
| TileMatching.PalindromeRef | Tests/AdventOfCodeTests/Day20Tests.swift:99 | an edge that reads the same both ways has signature zero |
| TileMatching.Edges | Tests/AdventOfCodeTests/Day20Tests.swift:83-87 | four non-empty edges, top, right, bottom reversed, left, which meet at the tile's corners |
| TileMatching.RightColumn | Tests/AdventOfCodeTests/Day20Tests.swift:85 | the last character of every row, in row order |
| TileMatching.LeftColumn | Tests/AdventOfCodeTests/Day20Tests.swift:87 | the first character of every row, in row order |
| TileMatching.MakeTile | Tests/AdventOfCodeTests/Day20Tests.swift:78-89 | a tile keeps its id and rows and has four references, one per edge in order |
| TileMatching.RefsOf | Tests/AdventOfCodeTests/Day20Tests.swift:83-88 | the references are exactly top, right, bottom, left edge references |
| TileMatching.FlipH | Tests/AdventOfCodeTests/Day20Tests.swift:75 | mirroring a tile left to right reverses every row |
| TileMatching.FlipV | Tests/AdventOfCodeTests/Day20Tests.swift:75 | mirroring a tile top to bottom reverses the order of the rows |
| TileMatching.FlipHEdges | Tests/AdventOfCodeTests/Day20Tests.swift:83-88 | a left-right mirror swaps the left and right edges and reverses the top and bottom ones |
| TileMatching.FlipVEdges | Tests/AdventOfCodeTests/Day20Tests.swift:83-88 | a top-bottom mirror swaps the top and bottom edges and reverses the side ones |
| TileMatching.FlipVColumns | Tests/AdventOfCodeTests/Day20Tests.swift:85-87 | a top-bottom mirror reverses both side columns |
| TileMatching.FlipHRefs | Tests/AdventOfCodeTests/Day20Tests.swift:83-100 | a mirrored tile carries the same four references, with right and left exchanged |
| TileMatching.FlipVRefs | Tests/AdventOfCodeTests/Day20Tests.swift:83-100 | a mirrored tile carries the same four references, with top and bottom exchanged |
| TileMatching.AddRefsSpec | Tests/AdventOfCodeTests/Day20Tests.swift:48-50 | adding a tile appends its id to a reference's list once per edge carrying it and creates a key exactly for the references it carries |
| TileMatching.Edge2TileMapSpec | Tests/AdventOfCodeTests/Day20Tests.swift:46-52 | `edge2TileMap` lists for each reference the ids of the tiles carrying it, in tile order and once per edge, and has a key exactly for the carried references |
| TileMatching.IdsWithCount | Tests/AdventOfCodeTests/Day20Tests.swift:46-52 | a reference's list is non-empty exactly when some tile carries it |
| TileMatching.SharedSpec | Tests/AdventOfCodeTests/Day20Tests.swift:58-59 | every reference of a tile has a key (the force unwrap never fails), and it counts as shared exactly when more than one id is listed for it |
| TileMatching.FindCorners | Tests/AdventOfCodeTests/Day20Tests.swift:54-68 | no more corners than tiles |
| TileMatching.FindCornersSpec | Tests/AdventOfCodeTests/Day20Tests.swift:54-68 | an id is returned exactly when some tile with that id has exactly two shared edges |
| Passports.Names | Tests/AdventOfCodeTests/Day4Tests.swift:162 | the set holds exactly the names of the passport's fields |
| Passports.CountTestSpec | Tests/AdventOfCodeTests/Day4Tests.swift:163-164 | "eight names, or seven without `cid`" holds exactly when all seven required names are present |
| Passports.IsValidSpec | Tests/AdventOfCodeTests/Day4Tests.swift:161-165 | `isValid` holds exactly when every required field occurs in the passport |
| Passports.IsValid2Spec | Tests/AdventOfCodeTests/Day4Tests.swift:167-176 | `isValid2` holds exactly when every required field occurs with a value its rule accepts; `cid` never decides |
| Passports.ValidName | Tests/AdventOfCodeTests/Day4Tests.swift:168-173 | a name survives the filter exactly when some field of that name has a value its rule accepts |
| Passports.Valid2IsValid | Tests/AdventOfCodeTests/Day4Tests.swift:161-176 | a passport valid under the second policy is valid under the first |
| PassportsExample.Centimetres | Tests/AdventOfCodeTests/Day4Tests.swift:235-238 | a three-digit height in cm is accepted exactly when it lies in [150, 193] |
| PassportsExample.Inches | Tests/AdventOfCodeTests/Day4Tests.swift:240-243 | a two-digit height in inches is accepted exactly when it lies in [59, 76] |
| PassportsExample.YearValid | Tests/AdventOfCodeTests/Day4Tests.swift:225-233 | four digits within the bounds are an accepted year |
| PassportsExample.YearInvalid | Tests/AdventOfCodeTests/Day4Tests.swift:225-233 | four digits outside the bounds are a rejected year |
| PassportsExample.AllPresent | Tests/AdventOfCodeTests/Day4Tests.swift:167-176 | a passport with an accepted value for each of the seven required fields passes `isValid2` |
| PassportsExample.OneBad | Tests/AdventOfCodeTests/Day4Tests.swift:167-176 | a passport whose only field of a required name holds a rejected value fails `isValid2` |
| PassportsExample.Example0 | Tests/AdventOfCodeTests/Day4Tests.swift:28-29 | the first example passport is valid |
| PassportsExample.Example1 | Tests/AdventOfCodeTests/Day4Tests.swift:31-32 | the second example passport, lacking a height, is invalid |
| PassportsExample.Example2 | Tests/AdventOfCodeTests/Day4Tests.swift:34-37 | the third example passport, lacking only `cid`, is valid |
| PassportsExample.Example3 | Tests/AdventOfCodeTests/Day4Tests.swift:39-40 | the fourth example passport, lacking a birth year, is invalid |
| PassportsExample.ExampleValid | Tests/AdventOfCodeTests/Day4Tests.swift:76-81 | two of the four example passports pass `isValid` |
| PassportsExample.Valid2AllValid | Tests/AdventOfCodeTests/Day4Tests.swift:132-139 | all four passports of the valid list pass `isValid2` |
| PassportsExample.Invalid2NoneValid | Tests/AdventOfCodeTests/Day4Tests.swift:123-130 | none of the four passports of the invalid list passes `isValid2` |
| Passwords.CharCounts | Tests/AdventOfCodeTests/Days/Day2Tests.swift:87-89 | the map has a key for exactly the characters of the password, each mapped to its number of occurrences |
| Passwords.IsValid | Tests/AdventOfCodeTests/Days/Day2Tests.swift:86-93 | valid exactly when the number of occurrences of the letter, zero when absent, lies in [min, max] |
| Passwords.IsValid2 | Tests/AdventOfCodeTests/Days/Day2Tests.swift:100-105 | valid exactly when one, and only one, of the 1-based positions min and max holds the letter |
| Passwords.IsValid2Symmetric | Tests/AdventOfCodeTests/Days/Day2Tests.swift:95-105 | exchanging the two positions changes nothing, and a policy naming one position twice never passes |
| Passwords.Description | Tests/AdventOfCodeTests/Days/Day2Tests.swift:82-84 | the text starts with min in decimal, ends with the password, and is six characters longer than its parts |
| Passwords.ExampleCounts | Tests/AdventOfCodeTests/Day2Tests.swift:66-73 | the letters of the three puzzle example lines occur 1, 0 and 9 times |
| Passwords.ExamplePositions | Tests/AdventOfCodeTests/Day2Tests.swift:80-85 | of the three puzzle example lines only the first passes the position policy |
| Passwords.ExampleDescription | Tests/AdventOfCodeTests/Day2Tests.swift:62-64 | the first example line is described as "1 - 3 a abcde" |
| Toboggan.ColWrapped | Tests/AdventOfCodeTests/Days/Day3Tests.swift:88-91 | the row is kept; a non-negative column is reduced into [0, cols) |
| Toboggan.ColWrappedPeriodic | Tests/AdventOfCodeTests/Days/Day3Tests.swift:88-91 | moving `cols` columns to the right lands on the same wrapped cell: the course repeats to the right |
| Toboggan.ToboganRun | Tests/AdventOfCodeTests/Days/Day3Tests.swift:72-85 | the count is the number of non-open cells among the visits (0, 0), slope, 2·slope, … that stay on the course |
| Toboggan.TreesFromBound | Tests/AdventOfCodeTests/Days/Day3Tests.swift:72-85 | a run meets at most one tree per visit and makes at most one visit per row |
| Toboggan.ToboganRuns | Tests/AdventOfCodeTests/Days/Day3Tests.swift:68-70 | one count per slope, in slope order, each the run of that slope and at most the number of rows |
| TobogganExample.TreesB | Tests/AdventOfCodeTests/Days/Day3Tests.swift:35-39 | slope (3, 1) meets 7 trees on the example course |
| TobogganExample.ExampleRuns | Tests/AdventOfCodeTests/Days/Day3Tests.swift:47-56 | the five slopes meet 2, 7, 3, 4 and 2 trees, whose product is 336 |
| Customs.InFormSet | Tests/AdventOfCodeTests/Day6Tests.swift:45 | a form's set of questions holds exactly the letters of the form |
| Customs.AnyoneYes | Tests/AdventOfCodeTests/Day6Tests.swift:44-46 | the union holds exactly the questions someone in the group answered, and equals the left fold of the forms |
| Customs.UnionSpec | Tests/AdventOfCodeTests/Day6Tests.swift:69 | a question is in the union exactly when some form holds it |
| Customs.IntersectAllSpec | Tests/AdventOfCodeTests/Day6Tests.swift:70 | a question survives the intersections exactly when it is in the start set and in every form |
| Customs.EveryoneYesSpec | Tests/AdventOfCodeTests/Day6Tests.swift:68-71 | a question is in part 2's set exactly when the group is non-empty and every form holds it |
| Customs.EveryoneWithinAnyone | Tests/AdventOfCodeTests/Day6Tests.swift:44-71 | everyone's answers are among anyone's, and equal them for a group of one |
| CustomsExample.Group0 | Tests/AdventOfCodeTests/Day6Tests.swift:15 | group "abc": 3 questions by anyone, 3 by everyone |
| CustomsExample.Group1 | Tests/AdventOfCodeTests/Day6Tests.swift:17-19 | group "a", "b", "c": 3 by anyone, none by everyone |
| CustomsExample.Group2 | Tests/AdventOfCodeTests/Day6Tests.swift:21-22 | group "ab", "ac": 3 by anyone, 1 by everyone |
| CustomsExample.Group3 | Tests/AdventOfCodeTests/Day6Tests.swift:24-27 | four "a" forms: 1 by anyone, 1 by everyone |
| CustomsExample.Group4 | Tests/AdventOfCodeTests/Day6Tests.swift:29 | group "b": 1 by anyone, 1 by everyone |
| CustomsExample.Example | Tests/AdventOfCodeTests/Day6Tests.swift:40-75 | the example's sums are 11 for part 1 and 6 for part 2 |
| CustomsExample.SumsStep | Tests/AdventOfCodeTests/Day6Tests.swift:48 | each sum is the first group's count plus the sum of the rest |
| Handheld.JmpLineNos | Tests/AdventOfCodeTests/Days/Day8Tests.swift:83-87 | the list holds exactly the indices of the `jmp` lines, in increasing order |
| Handheld.Step | Tests/AdventOfCodeTests/Days/Day8Tests.swift:100-111 | the current line is recorded as executed; `acc` adds its argument and advances, `jmp` adds its argument to the counter, `nop` advances |
| Handheld.RunCollects | Tests/AdventOfCodeTests/Days/Day8Tests.swift:96-112 | the loop stops in a state where its condition fails, having added the executed lines to the set and their `acc` arguments to the accumulator |
| Handheld.TraceFresh | Tests/AdventOfCodeTests/Days/Day8Tests.swift:96-100 | the executed lines lie in the program, were not executed before, and are all different |
| Handheld.RunFacts | Tests/AdventOfCodeTests/Days/Day8Tests.swift:90-115 | both of the above together: the stopping state, the executed set and the accumulator are those of the trace |
| Handheld.RunSteps | Tests/AdventOfCodeTests/Days/Day8Tests.swift:96-99 | a run executes at most as many lines as the program has, so the loop always ends |
| Handheld.OutcomeFacts | Tests/AdventOfCodeTests/Days/Day8Tests.swift:114 | `looped` is false exactly when the counter stops at `lines.count`; it is true for a counter below 0, beyond the end or on a line already executed; `acc` sums the executed `acc` arguments |
| Handheld.RunUntilLoop | Tests/AdventOfCodeTests/Days/Day8Tests.swift:90-115 | the loop with its three variables returns the outcome of the run from line 0 |
| Handheld.TryJmpFix | Tests/AdventOfCodeTests/Days/Day8Tests.swift:117-132 | the loop over `jmpLineNos`, patching and restoring one line at a time, returns the first fix among the `jmp` lines in order |
| Handheld.TryJmpFixSpec | Tests/AdventOfCodeTests/Days/Day8Tests.swift:117-132 | the answer is the lowest line whose replacement by `nop +0` lets the program finish, with that run's accumulator; there is none exactly when no such line exists |
| Handheld.FirstFixIndex | Tests/AdventOfCodeTests/Days/Day8Tests.swift:120-131 | the answer comes from the first try whose patched program finishes, and every earlier try loops |
| HandheldExample.ExampleLoops | Tests/AdventOfCodeTests/Days/Day8Tests.swift:42-48 | the example program loops with accumulator 5 |
| HandheldExample.Patch7Finishes | Tests/AdventOfCodeTests/Days/Day8Tests.swift:58-64 | with line 7 patched, the example finishes with accumulator 8 |
| HandheldExample.NoFixBefore7 | Tests/AdventOfCodeTests/Days/Day8Tests.swift:58-64 | patching any line before 7 does not let the example finish |
| HandheldExample.ExampleFix | Tests/AdventOfCodeTests/Days/Day8Tests.swift:58-64 | `tryJmpFix` on the example answers line 7 with accumulator 8 |
| HandheldExample.OnlyFix | Tests/AdventOfCodeTests/Days/Day8Tests.swift:117-132 | a fixing line with no fixing line before it is the answer of `tryJmpFix` |
| OperationOrder.LeftToRightFront | Tests/AdventOfCodeTests/Days/Day18Tests.swift:105-107 | applying the first operator to the first two values leaves the rest of the left-to-right fold unchanged |
| OperationOrder.ChainLeftToRight | Tests/AdventOfCodeTests/Days/Day18Tests.swift:99-109 | `Evaluator` on a chain is the strict left-to-right fold of the accumulator and the chain's factor values |
| OperationOrder.EvaluateLeftToRight | Tests/AdventOfCodeTests/Days/Day18Tests.swift:88-129 | `Evaluator` on an expression is the left-to-right fold of its top-level values, with no precedence |
| OperationOrder.GroupsShiftFirst | Tests/AdventOfCodeTests/Days/Day18Tests.swift:149-151 | changing the first value changes only the sum of the first `+`-run, by the same amount |
| OperationOrder.ProductOfSumsSplit | Tests/AdventOfCodeTests/Days/Day18Tests.swift:153-157 | the product of the run sums is the first run's sum times the product of the rest |
| OperationOrder.GroupsAddFirst | Tests/AdventOfCodeTests/Days/Day18Tests.swift:149-151 | a leading `+` merges the first two values into one |
| OperationOrder.GroupsMultiplyFirst | Tests/AdventOfCodeTests/Days/Day18Tests.swift:153-157 | a leading `*` multiplies the first value by the value of everything after it |
| OperationOrder.ChainPrecedence | Tests/AdventOfCodeTests/Days/Day18Tests.swift:142-159 | `Evaluator2` on a chain is the product of the sums of the runs between its `*` operators: `+` binds tighter |
| OperationOrder.EvaluatePrecedence | Tests/AdventOfCodeTests/Days/Day18Tests.swift:131-179 | `Evaluator2` on an expression is the product of the sums of its top-level `+`-runs |
| OperationOrder.DescribeFactor | Tests/AdventOfCodeTests/Days/Day18Tests.swift:213-218 | a factor's text starts with '(', '-' or a digit |
| OperationOrder.ReadNumber | Tests/AdventOfCodeTests/Days/Day18Tests.swift:270 | a successful read consumes at least one character |
| OperationOrder.ReadExpression | Tests/AdventOfCodeTests/Days/Day18Tests.swift:236-244 | a successful read consumes at least one character |
| OperationOrder.ReadChain | Tests/AdventOfCodeTests/Days/Day18Tests.swift:246-255 | a successful read consumes at least one character |
| OperationOrder.ReadFactor | Tests/AdventOfCodeTests/Days/Day18Tests.swift:257-265 | a successful read consumes at least one character |
| OperationOrder.ReadNumberDescribe | Tests/AdventOfCodeTests/Days/Day18Tests.swift:270 | reading a number's decimal text gives the number back and leaves what follows |
| OperationOrder.ReadFactorDescribe | Tests/AdventOfCodeTests/Days/Day18Tests.swift:257-265 | reading a factor's text gives the factor back and leaves what follows |
| OperationOrder.ReadChainHead | Tests/AdventOfCodeTests/Days/Day18Tests.swift:249-268 | the reader takes " op " and reads a factor from what follows it |
| OperationOrder.ReadChainDescribe | Tests/AdventOfCodeTests/Days/Day18Tests.swift:246-255 | reading a chain's text gives the chain back and leaves what follows |
| OperationOrder.ReadDescribe | Tests/AdventOfCodeTests/Days/Day18Tests.swift:236-244 | reading an expression's description gives the expression back, whatever may follow it |
| OperationOrder.DescribeInjective | Tests/AdventOfCodeTests/Days/Day18Tests.swift:183-230 | different expressions have different descriptions |
| OperationOrderExample.Example0 | Tests/AdventOfCodeTests/Days/Day18Tests.swift:52-74 | "1 + 2 * 3 + 4 * 5 + 6" evaluates to 71, and to 231 with `+` first |
| OperationOrderExample.Example1 | Tests/AdventOfCodeTests/Days/Day18Tests.swift:52-74 | "2 * 3 + (4 * 5)" evaluates to 26, and to 46 with `+` first |
| OperationOrderExample.Example2 | Tests/AdventOfCodeTests/Days/Day18Tests.swift:52-74 | the third example evaluates to 437, and to 1445 with `+` first |
| OperationOrderExample.Example3 | Tests/AdventOfCodeTests/Days/Day18Tests.swift:52-74 | the fourth example evaluates to 12240, and to 669060 with `+` first |
| OperationOrderExample.Example4 | Tests/AdventOfCodeTests/Days/Day18Tests.swift:52-74 | the fifth example evaluates to 13632, and to 23340 with `+` first |
| OperationOrderExample.ExampleDescriptions | Tests/AdventOfCodeTests/Days/Day18Tests.swift:25-33 | the first two examples are described as their input lines |
| DockingData.AndBit | Tests/AdventOfCodeTests/Days/Day14Tests.swift:99 | a bit of `x & y` is set exactly when it is set in both |
| DockingData.OrBit | Tests/AdventOfCodeTests/Days/Day14Tests.swift:99 | a bit of the bitwise or of `x` and `y` is set exactly when it is set in either |
| DockingData.ClearBit | Tests/AdventOfCodeTests/Days/Day14Tests.swift:130 | a bit of `x & ~y` is set exactly when it is set in `x` and not in `y` |
| DockingData.Pow2Bit | Tests/AdventOfCodeTests/Days/Day14Tests.swift:114-119 | `1 << p` has bit `p` and no other |
| DockingData.BitsEqual | Tests/AdventOfCodeTests/Days/Day14Tests.swift:148-150 | two words with the same bits are equal |
| DockingData.FromChars | Tests/AdventOfCodeTests/Days/Day14Tests.swift:157-167 | both words of a parsed mask fit in as many bits as there are characters |
| DockingData.FromCharsBits | Tests/AdventOfCodeTests/Days/Day14Tests.swift:152-167 | bit `i` of `mask` is set exactly when the character `i` places from the right is 'X', and of `bits` exactly when it is '1' |
| DockingData.FromCharsDisjoint | Tests/AdventOfCodeTests/Days/Day14Tests.swift:157-167 | no parsed mask has a position set in both words |
| DockingData.DescriptionAsWritten | Tests/AdventOfCodeTests/Days/Day14Tests.swift:169-184 | the written `description` repeats one character 36 times, because neither word is ever shifted |
| DockingData.Description | Tests/AdventOfCodeTests/Days/Day14Tests.swift:169-184 | 36 mask characters, one per position from bit 35 down to bit 0 |
| DockingData.FromDescription | Tests/AdventOfCodeTests/Days/Day14Tests.swift:157-184 | parsing the corrected description of a 36-bit mask gives the mask back |
| DockingData.DescriptionFromChars | Tests/AdventOfCodeTests/Days/Day14Tests.swift:157-184 | the corrected description of a parsed 36-character mask is those characters |
| DockingData.DescriptionAsWrittenRepeats | Tests/AdventOfCodeTests/Days/Day14Tests.swift:169-184 | for a mask whose last character is 'X' and which holds a '1', the written description differs from the text it was parsed from, while the corrected one gives it back |
| DockingData.MaskedBits | Tests/AdventOfCodeTests/Days/Day14Tests.swift:99 | where the mask has an 'X' the value's bit shows through; elsewhere the mask's own bit is stored |
| DockingData.Run | Tests/AdventOfCodeTests/Days/Day14Tests.swift:92-103 | the `forEach` over the instructions ends in the state of all of them applied in order |
| DockingData.LastAssign | Tests/AdventOfCodeTests/Days/Day14Tests.swift:98-100 | the position of the last assignment to a location, or none |
| DockingData.RunMemory | Tests/AdventOfCodeTests/Days/Day14Tests.swift:92-103 | after `run` the current mask is the last mask given; a location is in memory exactly when some instruction assigned it, and holds the last such value under the mask in force at that point |
| DockingData.FloatingBits | Tests/AdventOfCodeTests/Days/Day14Tests.swift:114 | the positions below 36 where the mask has an 'X', in increasing order |
| DockingData.Combinations | Tests/AdventOfCodeTests/Days/Day14Tests.swift:115-120 | k positions give 2^k combinations |
| DockingData.CombinationsFloat | Tests/AdventOfCodeTests/Days/Day14Tests.swift:114-120 | the combinations are exactly the words made only of floating bits |
| DockingData.AddressesSpec | Tests/AdventOfCodeTests/Days/Day14Tests.swift:111-131 | a mask with k 'X's gives 2^k addresses, and they are exactly the words that agree with `loc` with the mask bits cleared and `bits` set outside the 'X' positions |
| DockingData.AddressesSound | Tests/AdventOfCodeTests/Days/Day14Tests.swift:128-131 | every address agrees with `loc` with the mask bits cleared and `bits` set outside the 'X' positions |
| DockingData.AddressesComplete | Tests/AdventOfCodeTests/Days/Day14Tests.swift:114-131 | every word agreeing with `loc` with the mask bits cleared and `bits` set outside the 'X' positions is an address |
| DockingData.NoFloatingSingleAddress | Tests/AdventOfCodeTests/Days/Day14Tests.swift:122-126 | with no 'X' the single address is `loc` with `bits` set, so the guarded branch writes what the general one would |
| DockingData.WriteAll | Tests/AdventOfCodeTests/Days/Day14Tests.swift:133-135 | the addresses are added with the value; every other location keeps its value |
| DockingData.WriteEach | Tests/AdventOfCodeTests/Days/Day14Tests.swift:133-135 | the loop over the floating addresses ends with every address written |
| DockingData.Run2Step | Tests/AdventOfCodeTests/Days/Day14Tests.swift:106-136 | a mask replaces the current mask only; an assignment sets every floating address to the value and leaves the rest of memory alone |
| DockingData.Run2 | Tests/AdventOfCodeTests/Days/Day14Tests.swift:105-138 | the `forEach` ends in the state of all instructions applied in order under the second decoder |
| DockingData.MemSumRemove | Tests/AdventOfCodeTests/Days/Day14Tests.swift:56-72 | the sum of the memory's values does not depend on which location is taken first |
| DockingData.MemSumAdd | Tests/AdventOfCodeTests/Days/Day14Tests.swift:56-72 | writing a new location adds its value to the sum |
| DockingDataExample.ExampleMasks | Tests/AdventOfCodeTests/Days/Day14Tests.swift:31-34 | the example's three masks parse to the expected pairs of words |
| DockingDataExample.ExampleDescription | Tests/AdventOfCodeTests/Days/Day14Tests.swift:169-184 | the written description of the first mask is 36 'X's, not its text; the corrected one is its text |
| DockingDataExample.Masked11 | Tests/AdventOfCodeTests/Days/Day14Tests.swift:99 | 11 is stored as 73 under the first mask |
| DockingDataExample.Masked101 | Tests/AdventOfCodeTests/Days/Day14Tests.swift:99 | 101 is stored unchanged under the first mask |
| DockingDataExample.Masked0 | Tests/AdventOfCodeTests/Days/Day14Tests.swift:99 | 0 is stored as 64 under the first mask |
| DockingDataExample.ExampleRun | Tests/AdventOfCodeTests/Days/Day14Tests.swift:52-58 | `run` on the first example leaves 64 at 8 and 101 at 7, summing to 165 |
| DockingDataExample.ExampleAddresses | Tests/AdventOfCodeTests/Days/Day14Tests.swift:23-26 | location 42 under the second example's first mask floats to 26, 58, 27, 59; location 26 under its second to 16 to 27 |
| DockingDataExample.ExampleRun2 | Tests/AdventOfCodeTests/Days/Day14Tests.swift:68-74 | `run2` on the second example leaves memory summing to 208 |
| ConwayCubes.LeTrans | Sources/AdventOfCode/Indexing.swift:20 | the order read off `min` is transitive |
| ConwayCubes.LeAntisymmetric | Sources/AdventOfCode/Indexing.swift:20 | the order read off `min` is antisymmetric |
| ConwayCubes.LePlus | Sources/AdventOfCode/Indexing.swift:19-20 | translating both sides by the same amount keeps the order |
| ConwayCubes.GlbStep | Tests/AdventOfCodeTests/Day17Tests.swift:150 | one more step of `reduce(first, Index.min)` keeps the greatest lower bound of the cubes seen |
| ConwayCubes.LubStep | Tests/AdventOfCodeTests/Day17Tests.swift:151 | one more step of `reduce(first, Index.max)` keeps the least upper bound of the cubes seen |
| ConwayCubes.BoundsUnique | Tests/AdventOfCodeTests/Day17Tests.swift:150-151 | the greatest lower and least upper bounds of a set are unique, so the box does not depend on the fold order |
| ConwayCubes.SetActive | Tests/AdventOfCodeTests/Day17Tests.swift:105-111 | only the given cube changes, and it ends up active or inactive as asked |
| ConwayCubes.Neighbors | Tests/AdventOfCodeTests/Day17Tests.swift:140-141 | one neighbour per offset |
| ConwayCubes.NeighborCubeCount | Tests/AdventOfCodeTests/Day17Tests.swift:139-144 | the count is at most the number of offsets |
| ConwayCubes.NeighborCubeCountZero | Tests/AdventOfCodeTests/Day17Tests.swift:139-144 | the count is positive exactly when some `index + offset` is active |
| ConwayCubes.NeighborCubeCountComplement | Tests/AdventOfCodeTests/Day17Tests.swift:139-144 | the neighbours not counted are exactly the inactive ones |
| ConwayCubes.WillBeActiveSpec | Tests/AdventOfCodeTests/Day17Tests.swift:126-137 | an active cube stays active with 2 or 3 active neighbours; an inactive one becomes active with exactly 3 |
| ConwayCubes.SingletonBounds | Tests/AdventOfCodeTests/Day17Tests.swift:147-151 | the fold's starting cube is its own lower and upper bound |
| ConwayCubes.Padded | Tests/AdventOfCodeTests/Day17Tests.swift:149-152 | the bounds padded by `unitMinus` and `unitPlus` form the box of interest |
| ConwayCubes.Bounds | Tests/AdventOfCodeTests/Day17Tests.swift:147-151 | the `min` and `max` folds from the first cube give the greatest lower and least upper bounds of the cubes |
| ConwayCubes.BoxOfInterest | Tests/AdventOfCodeTests/Day17Tests.swift:146-153 | `nil` exactly when no cube is active; otherwise the bounds of the active cubes, one unit out on every side |
| ConwayCubes.NearActiveInBox | Tests/AdventOfCodeTests/Day17Tests.swift:113-153 | every cube that is active or has an active neighbour lies in the box of interest |
| ConwayCubes.BoxOrdered | Tests/AdventOfCodeTests/Day17Tests.swift:146-153 | the box's lower corner is below its upper corner, so `indicesInRange` accepts it |
| ConwayCubes.FilterBox | Tests/AdventOfCodeTests/Day17Tests.swift:117-118 | filtering the box by the rule keeps exactly the cubes the rule activates anywhere |
| ConwayCubes.NextCycle | Tests/AdventOfCodeTests/Day17Tests.swift:113-124 | a cube is active after the cycle exactly when the rule activates it |
| ConwayCubes.SetFromCubeSlice | Tests/AdventOfCodeTests/Day17Tests.swift:155-173 | the cubes of every '#' of the slice, within the first row's width, are added to the active ones |
| ConwayCubes.SliceCubes3D | Tests/AdventOfCodeTests/Day17Tests.swift:155-163 | in 3D a slice activates `(x, y, 0)` exactly where row `y`, column `x` holds '#' |
| ConwayCubes.SliceCubes4D | Tests/AdventOfCodeTests/Day17Tests.swift:165-173 | in 4D a slice activates `(x, y, 0, 0)` exactly where row `y`, column `x` holds '#' |
| ConwayCubes.Le3D | Sources/AdventOfCode/Indexing.swift:103-105 | the order read off `Index3D.min` is the component-wise order |
| ConwayCubes.MinLaws3D | Sources/AdventOfCode/Indexing.swift:103-105 | `Index3D.min` is the meet of the component-wise order |
| ConwayCubes.MaxLaws3D | Sources/AdventOfCode/Indexing.swift:107-109 | `Index3D.max` is the join of the same order |
| ConwayCubes.PlusLaws3D | Sources/AdventOfCode/Indexing.swift:82-105 | translation distributes over `min`; `unitMinus` and `unitPlus` undo each other; `unitMinus` steps down |
| ConwayCubes.PlusUnits3D | Sources/AdventOfCode/Indexing.swift:82-101 | adding `unitMinus` then `unitPlus`, or the reverse, gives the index back |
| ConwayCubes.NeighborLaws3D | Sources/AdventOfCode/Indexing.swift:81-85 | every 3D neighbour lies within one unit of the cube on each axis |
| ConwayCubes.BoxLaws3D | Sources/AdventOfCode/Indexing.swift:87-97 | `indicesBetween` accepts every ordered pair and enumerates exactly the points between them |
| ConwayCubes.Lawful3D | Sources/AdventOfCode/Indexing.swift:70-110 | `Index3D` meets every law the automaton relies on |
| ConwayCubes.Le4D | Sources/AdventOfCode/Indexing.swift:151-156 | the order read off `Index4D.min` is the component-wise order |
| ConwayCubes.MinLaws4D | Sources/AdventOfCode/Indexing.swift:151-156 | `Index4D.min` is the meet of the component-wise order |
| ConwayCubes.MaxLaws4D | Sources/AdventOfCode/Indexing.swift:158-163 | `Index4D.max` is the join of the same order |
| ConwayCubes.PlusLaws4D | Sources/AdventOfCode/Indexing.swift:125-156 | translation distributes over `min`; `unitMinus` and `unitPlus` undo each other; `unitMinus` steps down |
| ConwayCubes.NeighborLaws4D | Sources/AdventOfCode/Indexing.swift:124-128 | every 4D neighbour lies within one unit of the cube on each axis |
| ConwayCubes.BoxLaws4D | Sources/AdventOfCode/Indexing.swift:130-142 | `indicesBetween` accepts every ordered pair and enumerates exactly the points between them |
| ConwayCubes.Lawful4D | Sources/AdventOfCode/Indexing.swift:112-164 | `Index4D` meets every law the automaton relies on |
| ConwayCubes.NeighborCubeCountBounds | Tests/AdventOfCodeTests/Day17Tests.swift:139-144 | a cube has at most 26 active neighbours in 3D and 80 in 4D |
| ConwayExample.ExampleSliceCubes | Tests/AdventOfCodeTests/Day17Tests.swift:155-163 | the example slice activates exactly its five '#' cells in the plane z = 0 |
| ConwayExample.ExampleBox | Tests/AdventOfCodeTests/Day17Tests.swift:34-42 | the example's box of interest runs from (-1, -1, -1) to (3, 3, 1) |
| SeatingSystem.MakeLounge | Tests/AdventOfCodeTests/Days/Day11Tests.swift:105-116 | the lounge keeps the chart, spans (0, 0) to (width - 1, height - 1), and its chairs are exactly the cells holding 'L' |
| SeatingSystem.ChairsOfChart | Tests/AdventOfCodeTests/Days/Day11Tests.swift:110-111 | filtering the range's indices by 'L' keeps exactly the chair cells, all inside the range |
| SeatingSystem.AdjacentAlongSpec | Tests/AdventOfCodeTests/Days/Day11Tests.swift:122-126 | a cell is listed exactly when it is a chair reached by one of the offsets; no more cells than offsets |
| SeatingSystem.AdjacentSpec | Tests/AdventOfCodeTests/Days/Day11Tests.swift:122-126 | an adjacent chair is a chair other than the cell itself within one step on each axis; there are at most 8 |
| SeatingSystem.NeighboringSeatsSpec | Tests/AdventOfCodeTests/Days/Day11Tests.swift:119-130 | the map has an entry for every chair and no other cell, holding exactly its adjacent chairs |
| SeatingSystem.RemainingStep | Tests/AdventOfCodeTests/Days/Day11Tests.swift:138-140 | a step that stays in the range leaves fewer steps to go, so the `while true` loop ends |
| SeatingSystem.SightFromSpec | Tests/AdventOfCodeTests/Days/Day11Tests.swift:137-144 | looking along a direction stops at the first step that leaves the range (`nil`) or reaches a chair (that chair) |
| SeatingSystem.SightEnds | Tests/AdventOfCodeTests/Days/Day11Tests.swift:138-144 | such a stopping step always exists |
| SeatingSystem.LineOfSight | Tests/AdventOfCodeTests/Days/Day11Tests.swift:137-144 | the stepping loop returns the first chair seen along the direction, or `nil` |
| SeatingSystem.SightsSpec | Tests/AdventOfCodeTests/Days/Day11Tests.swift:135-145 | a chair is listed exactly when it is the first seen along some direction; at most one per direction |
| SeatingSystem.LookAround | Tests/AdventOfCodeTests/Days/Day11Tests.swift:135-145 | the `compactMap` over the directions lists the chairs seen, skipping directions that see none |
| SeatingSystem.SightsOfChairs | Tests/AdventOfCodeTests/Days/Day11Tests.swift:133-148 | the `reduce(into:)` maps every chair, and only chairs, to the chairs it sees |
| SeatingSystem.NeighboringSeatsLineOfSight | Tests/AdventOfCodeTests/Days/Day11Tests.swift:132-149 | every chair, and only chairs, mapped to the first chair seen in each of the eight directions |
| SeatingSystem.OccupiedNeighbors | Tests/AdventOfCodeTests/Days/Day11Tests.swift:200-206 | no more occupied neighbours than neighbours |
| SeatingSystem.OccupiedNeighborsZero | Tests/AdventOfCodeTests/Days/Day11Tests.swift:200-206 | the count is zero exactly when no neighbour is occupied |
| SeatingSystem.WillBeOccupied | Tests/AdventOfCodeTests/Days/Day11Tests.swift:181-198 | an occupied seat stays occupied exactly when fewer than `croudedCount` neighbours are occupied; an empty one fills exactly when none is |
| SeatingSystem.Seating | Tests/AdventOfCodeTests/Days/Day11Tests.swift:167-179 | the next occupancy holds exactly the chairs the rule occupies given the previous occupancy |
| SeatingSystem.SeatUntilStable | Tests/AdventOfCodeTests/Days/Day11Tests.swift:153-165 | the count is the first round that changes nothing, counting that round, and the seating is that fixed point of the round |
| SeatingSystem.RoundsAreChairs | Tests/AdventOfCodeTests/Days/Day11Tests.swift:167-179 | only chairs are ever occupied |
| SeatingSystem.StableForever | Tests/AdventOfCodeTests/Days/Day11Tests.swift:158-162 | once a round changes nothing, no later round does |
| SeatingSystem.RuleDefinedOn | Tests/AdventOfCodeTests/Days/Day11Tests.swift:187 | with a neighbour map covering the chairs, `neighboringSeats[index]!` never traps |
| SeatingSystem.FirstRoundFillsAll | Tests/AdventOfCodeTests/Days/Day11Tests.swift:155-192 | the first round from an empty lounge fills every chair, whatever the neighbours and threshold |
| LobbyLayout.Offset | Tests/AdventOfCodeTests/Day24Tests.swift:154-163 | every direction's offset is a single hexagonal step |
| LobbyLayout.OffsetBijective | Tests/AdventOfCodeTests/Day24Tests.swift:148-163 | the six directions reach six different tiles, and every hexagonal step is one of them |
| LobbyLayout.HexOffsetsSpec | Tests/AdventOfCodeTests/Day24Tests.swift:127 | the neighbour offsets are the six hexagonal steps, each once |
| LobbyLayout.TileIndexSnoc | Tests/AdventOfCodeTests/Day24Tests.swift:174-175 | a path one step longer ends one step further |
| LobbyLayout.FoldCounts | Tests/AdventOfCodeTests/Day24Tests.swift:175 | the fold adds to its start the net steps along each axis |
| LobbyLayout.TileIndexCounts | Tests/AdventOfCodeTests/Day24Tests.swift:174-175 | each axis of a tile index is a fixed combination of how often each direction occurs |
| LobbyLayout.TileIndexReordered | Tests/AdventOfCodeTests/Day24Tests.swift:174-175 | paths that take the same steps in any order lead to the same tile |
| LobbyLayout.NwwsweeReturns | Tests/AdventOfCodeTests/Day24Tests.swift:45-48 | "nwwswee" leads back to the reference tile |
| LobbyLayout.MinLawsHex | Sources/AdventOfCode/Indexing.swift:61-63 | `Index2D.min` is the meet of the component-wise order |
| LobbyLayout.MaxLawsHex | Sources/AdventOfCode/Indexing.swift:65-67 | `Index2D.max` is the join of the same order |
| LobbyLayout.PlusLawsHex | Sources/AdventOfCode/Indexing.swift:42-63 | translation distributes over `min`; `unitMinus` and `unitPlus` undo each other; `unitMinus` steps down |
| LobbyLayout.NeighborLawsHex | Tests/AdventOfCodeTests/Day24Tests.swift:127-163 | every hexagonal neighbour lies within one unit of the tile on each axis |
| LobbyLayout.BoxLawsHex | Sources/AdventOfCode/Indexing.swift:47-55 | `indicesBetween` accepts every ordered pair and enumerates exactly the tiles between them |
| LobbyLayout.TileFloor.Flip | Tests/AdventOfCodeTests/Day24Tests.swift:89-91 | the tile changes colour and no other tile does |
| LobbyLayout.TileFloor.FlipTwice | Tests/AdventOfCodeTests/Day24Tests.swift:89-91 | flipping a tile twice leaves the floor as it was |
| LobbyLayout.TileFloor.FlipAll | Tests/AdventOfCodeTests/Day24Tests.swift:52 | a tile ends up with its colour changed exactly when it is listed an odd number of times |
| LobbyLayout.TileFloor.BlackNeighbors | Tests/AdventOfCodeTests/Day24Tests.swift:129-134 | at most six black neighbours |
| LobbyLayout.TileFloor.WhiteNeighbors | Tests/AdventOfCodeTests/Day24Tests.swift:136-138 | between zero and six white neighbours |
| LobbyLayout.TileFloor.WhiteNeighborsSpec | Tests/AdventOfCodeTests/Day24Tests.swift:129-138 | the white count is the number of adjacent tiles that are not black |
| LobbyLayout.TileFloor.BlackNeighborsZero | Tests/AdventOfCodeTests/Day24Tests.swift:129-134 | the black count is zero exactly when no adjacent tile is black |
| LobbyLayout.TileFloor.WillBeBlackSpec | Tests/AdventOfCodeTests/Day24Tests.swift:99-115 | a black tile stays black with one or two black neighbours; a white tile turns black with exactly two; a tile that will be black is black or has a black neighbour |
| LobbyLayout.TileFloor.AreaOfInterest | Tests/AdventOfCodeTests/Day24Tests.swift:121-125 | `nil` exactly on an all-white floor; otherwise the bounds of the black tiles, one unit out on every side |
| LobbyLayout.TileFloor.AreaOrdered | Tests/AdventOfCodeTests/Day24Tests.swift:121-125 | the area of a floor with a black tile is a non-empty box |
| LobbyLayout.TileFloor.WillBeBlackInArea | Tests/AdventOfCodeTests/Day24Tests.swift:95-125 | every tile that can be black the next day lies in the area of interest |
| LobbyLayout.TileFloor.DayProgress | Tests/AdventOfCodeTests/Day24Tests.swift:93-119 | a tile is black the next day exactly when the rule makes it black, anywhere on the floor |

## Left out

- The parser-combinator grammars (every `static let`/`static var` parser in the tests, `ColoredBags.swift:118-141`) are not modelled: their meaning comes from the external ParserCombinator package. The model starts from parsed values. Where a rule is a parser that must `matches` a value (Day 4's `isValueValid2`), `matches` is read as accepting the whole value and nothing more; that reading is an assumption about the external package. The exception is Day 18: `OperationOrder.ReadExpression` reads back what `description` prints. Other texts the parser accepts, such as extra spaces, are not covered.
- Day 19 is not modelled. Its matching is whatever the external `oneOf`/`oneOrMore`/`sequence` combinators do.
- File and resource I/O (`LoadResource.swift`, `readContents`) is not modelled. Neither is any expected answer for a hidden `Day*Input.txt` file, so the puzzle-input results of every day are absent.
- `Memoize.swift` is not modelled. The memoised recursions are plain recursive functions.
- The `print` in `only()` and the debugging `print`s are not modelled: output has no effect on results.
- `Int.chineseRemainderTheorem` (Day 13's second solver) calls the external EulerTools package and is not modelled. `firstOffsetDeparture` is modelled in its place.
- Day 1 and the swift-algorithms `combinations`/`product` are not modelled. `run2`'s floating combinations are modelled as all subsets of the floating bits, so the order in which addresses are produced is not captured.
- `Arranger`, `StateTracker` and `findArrangements3` are not modelled, and neither is the placeholder expectation of -1 in Day 10. Of the arrangement searches, only `findArrangements2` has expectations in the source, and it is the one modelled.
- `Sequence+.swift` duplicates `only()`. `String+.swift` wraps Swift `split`, and `List.swift` is a protocol with a one-line default. The model keeps one `only` (`Collections.Only`) and models `CharGrid(string:)`'s splitting directly.
- `LinkedLists.LinkedList.AsArray` states the values in order. Swift's `Array` copy semantics are not captured.
- `CrabCups.MovePermutes` proves that one move permutes the cups. The same fact over many moves is not stated as one lemma; it follows by applying `MovePermutes` once per move. The 100-move example is not proved; the 1- and 10-move examples are.
- `EdgeRef`'s `hashValue` is seeded per process. It is a parameter of `TileMatching` (any hash of an edge), and only its XOR of the two orientations is relied on. Reading the example tiles from `Day20Example.txt` is I/O and is not modelled.
- `DockingData`: masks and memory words are modelled as non-negative integers with bitwise operations defined bit by bit. Negative `Int` values, which two's-complement `&`/`|` would also accept, are not modelled.
- `Allergens`: the order in which Swift iterates dictionaries and sets in `reduceAllergenPossibilites` is not modelled. Each round is modelled as one step on the whole set of ingredients with a single candidate.
- Day 16's part two passes the per-position candidates to `SetSimplifier.uniqueify` and multiplies the "departure" fields of the hidden input. `uniqueify` is modelled in `SetSimplifier`; the puzzle-input product is not.
- Day 7's "shiny gold can be inside 4 bags" example is not proved; `ColoredBags.CanContainsForReach` states what `canContainsFor` computes for any rules. The 32-bag `mustContain` example is proved.
- Day 15's 2020th and 30000000th turns are not proved; the first ten turns of the example are.
- The six-cycle counts of Day 17 (112 and 848), the Day 11 example counts (6 rounds and 37 seats, 7 rounds and 26 seats) and Day 24's 10 and 2208 black tiles are not proved. Each needs many rounds of the automaton on a literal grid, which is too costly for the verifier. The rules of a single step are proved. So are the starting cubes and the box of interest of the Day 17 example, and that the first Day 11 round fills every chair.
- Passports: `cid`'s rule, `P.alphanum.matches`, is read as one alphanumeric character, so `Passports.ValueValid2` rejects a longer `cid` such as `147`. This never decides validity: `Passports.IsValid2Spec` shows that the count test ignores `cid`.
- Xmas.FindContiguousSum: requires non-negative numbers and a non-negative target. The source assumes the same, since with negative numbers the left end can pass the right one and index outside the array. The method can miss a range that exists; see Findings.
- Buses.FirstOffsetDeparture: takes a ghost `solution`, a number of steps after which every bus leaves at its offset. The source loops forever when no such departure exists, and the model does not cover that case.
- Combat.PlayUntilWinner: takes a ghost bound `n` and requires the game to end within `n` rounds. The source's `while true` loop has no bound, and the model does not prove that every game ends.
- Passwords.IsValid2: requires both positions to lie inside the password. Swift traps otherwise.
- SeatingSystem.SeatUntilStable: takes a `fuel` bound on the rounds and returns `None` when the seating has not settled within it. The source's `repeat` loop has no bound. The model does not prove that every seating settles.

## Findings

| source | as written | input that shows it | evidently intended | confidence | as-written member | corrected member |
|---|---|---|---|---|---|---|
| Tests/AdventOfCodeTests/Days/Day9Tests.swift:124-144 | the loop stops as soon as `r` reaches the end, even when the running sum is still above the target and shrinking from the left would find the range | numbers `[1, 5]`, target 5: the range grows to `0 ..< 2` (sum 6), the loop ends, and `nil` is returned although `1 ..< 2` sums to 5 | keep shrinking from the left while the sum exceeds the target, so a range is reported exactly when one exists | not executed | Xmas.FindContiguousSum, Xmas.ContiguousSumMissedExample | Xmas.FindContiguousSumComplete |
| Tests/AdventOfCodeTests/Days/Day14Tests.swift:169-184 | `description` never shifts `maskShift` or `bitsShift`, so all 36 characters come from bit 0 | the first example mask `XXXXXXXXXXXXXXXXXXXXXXXXXXXXX1XXXX0X` prints as 36 copies of `X` | print bit `35 - i` at position `i`, so `description` is the inverse of `fromChars` | not executed | DockingData.DescriptionAsWritten, DockingData.DescriptionAsWrittenRepeats, DockingDataExample.ExampleDescription | DockingData.Description, DockingData.FromDescription, DockingData.DescriptionFromChars |
