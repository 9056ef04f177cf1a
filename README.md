# Spanglish (USAS2) in Dafny

A model of the agent-based simulation of language contact in the
`spanglish` package. People of three races live on a 100 by 100 torus grid
divided into a home, a school and a work region. Each person keeps a
lexicon of items of four integers: an index, a language bit and two
inflection bits. People hear items from their neighbours and parents and
file them into a first lexicon, a second lexicon or a short-term memory
buffer, or let a small genetic algorithm rewrite the inflection of an
item they already know. Every step people age, die, retire, marry and
have children, and the model keeps three lists of agents (visibleList,
personList, latinoList), tallies and a "common lexicon" of the
population.

The Dafny modules follow the Java classes:

- `Items` (items.dfy): the item type, the dialect patterns (the `is*`
  tests and `freqOf*` counters of Lexicon), and Model.sameItem and
  sameInflection.
- `Sorting` (sorting.dfy): the stable sort behind `Collections.sort`, the
  shuffle permutation behind `SimUtilities.shuffle`, and a permutation
  built from draws.
- `Lexicons` (lexicon.dfy): Lexicon and BiLexicon as one class with a
  `kind` tag. Both wrap an `ItemList` object, so the aliasing of
  `BiLexicon(Lexicon)` is kept.
- `TempLexicons` (temp_lexicon.dfy): the hear-count buffer.
- `Space` (space.dfy): Region, the torus grid as an `array2<Option<AgentId>>`,
  and the GridWorld and TorusWorld operations.
- `Agents` (agents.dfy): Person with the roles Teacher, BabySitter and
  Attractor as a `role` tag, their status and lifecycle rules, and the
  hearing and listening routines.
- `Genetics` (genetics.dfy): GeneticAlg's crossing, mutation and commit.
- `Census` (census.dfy): value-level bookkeeping for Model. It covers list
  removal as `ArrayList.remove(Object)` performs it, the counters of
  calcStats, the USAS bins and the common-lexicon tables.
- `Population` (population.dfy): Model's list and statistics operations.

Every random draw (`nextInt`, `Random.uniform`, the shuffles) is a
parameter of the operation that uses it. A probability test on doubles
is a boolean "coin" parameter.

## Model

| member | source | states |
|---|---|---|
| Items.Matches | src/spanglish/Lexicon.java:499-614 | an item that isUSAS, isStandardEnglish, isAAE or isWhiteSpanish accepts carries a bit, 0 or 1, in each of positions 1..3 |
| Items.MatchesPattern | src/spanglish/Lexicon.java:499-614 | each of the four tests holds exactly when positions 1..3 spell its pattern: 1 0 1, 0 1 0, 0 0 1 or 1 1 0 |
| Items.IsUSAS | src/spanglish/Lexicon.java:499-509 | a USAS item matches no other dialect pattern |
| Items.DialectsExclusive | src/spanglish/Lexicon.java:499-614 | the USAS, Standard English, AAE and White Spanish patterns are pairwise exclusive: an item matching two of them matches the same one twice |
| Items.WithInflection | src/spanglish/Lexicon.java:229-242 | an item with its inflection taken from another keeps its own index and language, and positions 2 and 3 are the other item's |
| Items.ItemsEqual | src/spanglish/Lexicon.java:317-331 | itemsEqual is true exactly when the two arrays have the same length and agree at every position |
| Items.SameItem | src/spanglish/Model.java:1115-1130 | sameItem is true exactly when the lengths agree and the arrays agree at every position after the index |
| Items.SameInflection | src/spanglish/Model.java:1137-1152 | sameInflection is true exactly when the lengths agree and the arrays agree from position 2 on |
| Items.SameItemWeakerThanEqual | src/spanglish/Model.java:1115-1152 | two items that are the same item form also have the same inflection |
| Items.CountDialect | src/spanglish/Lexicon.java:411-486 | a dialect counter never exceeds the number of items |
| Items.DialectCountsBounded | src/spanglish/Lexicon.java:411-486 | the four dialect counters together never exceed the number of items |
| Items.CountBit | src/spanglish/Lexicon.java:622-639 | the count of a bit in one column never exceeds the number of items |
| Items.BitCountsPartition | src/spanglish/Lexicon.java:622-639 | when a column holds only two values, their two counts add up to the number of items |
| Sorting.SortByMap | src/spanglish/Lexicon.java:96-97 | Collections.sort keeps the multiset of any projection of the items |
| Sorting.SortBySortedPermutation | src/spanglish/Lexicon.java:96-97 | the sort returns a sorted permutation of its input, of the same length |
| Sorting.SortedIsFixpoint | src/spanglish/Lexicon.java:96-97 | sorting a list that is already in order returns it unchanged (the sort is stable) |
| Sorting.SortIdempotent | src/spanglish/Lexicon.java:96-97 | sorting twice gives the same list as sorting once |
| Sorting.SortByDistinct | src/spanglish/Lexicon.java:96-97 | sorting keeps keys that were distinct distinct |
| Sorting.StrictlySortedUnique | src/spanglish/Lexicon.java:166-168 | two strictly ordered lists of the same length with the same members are equal |
| Sorting.Shuffle | src/spanglish/Lexicon.java:159-160 | a shuffle by a permutation keeps the length |
| Sorting.ShuffleMembers | src/spanglish/Lexicon.java:159-160 | a shuffle neither loses nor invents items |
| Sorting.ShuffleDistinct | src/spanglish/Lexicon.java:159-160 | keys that were distinct stay distinct after a shuffle |
| Sorting.ResortAfterShuffle | src/spanglish/Lexicon.java:159-168 | shuffling a sorted list with distinct keys and sorting it again gives back the original list |
| Sorting.DrawIndex | src/spanglish/Model.java:1236-1251 | a drawn position lies in the list, and a one-element list always yields position 0 |
| Sorting.SwapKeepsPermutation | src/spanglish/Lexicon.java:159-160 | exchanging two positions of a permutation gives a permutation |
| Sorting.DrawPermutation | src/spanglish/Lexicon.java:159-160 | the swaps driven by any draws always produce a permutation of 0..n-1 |
| Lexicons.Position | src/spanglish/Lexicon.java:339-354 | the position found holds an item equal to the one looked for and is the first such; -1 exactly when no item is equal |
| Lexicons.ItemList.constructor | src/spanglish/Lexicon.java:37-63 | the list object holds the given items |
| Lexicons.Lexicon.Empty | src/spanglish/Lexicon.java:37-41 | a new lexicon has a fresh, empty list |
| Lexicons.Lexicon.Single | src/spanglish/Lexicon.java:47-54 | a lexicon built from one item has a fresh list holding that item |
| Lexicons.Lexicon.FromItems | src/spanglish/Lexicon.java:59-63 | a lexicon built from a list holds those items, unsorted and unchecked |
| Lexicons.Lexicon.Adopt | src/spanglish/BiLexicon.java:69-72 | BiLexicon(Lexicon) shares the other lexicon's list object rather than copying it |
| Lexicons.Lexicon.GetItem | src/spanglish/Lexicon.java:112-119 | getItem returns item i when i is a position of the list and null otherwise |
| Lexicons.Lexicon.Size | src/spanglish/Lexicon.java:701-703 | getNumItems is the first index at which getItem answers null |
| Lexicons.Lexicon.IsFull | src/spanglish/Lexicon.java:361-369 | isFull holds exactly when the last slot the capacity allows holds an item, maxItems for a Lexicon and twice that for a BiLexicon (src/spanglish/BiLexicon.java:153-161) |
| Lexicons.Lexicon.GetBit | src/spanglish/Lexicon.java:127-134 | getBit is the element of the item at that index, and -1 when the item or the element number is out of range |
| Lexicons.Lexicon.AddItem | src/spanglish/Lexicon.java:77-100 | addItem succeeds exactly when the item has four positions, the lexicon has room and no stored item clashes; the list becomes the accepted list re-sorted, or stays as it was |
| Lexicons.Lexicon.InLexicon | src/spanglish/Lexicon.java:339-354 | inLexicon returns the first position of an equal item, or -1 when there is none or the item is malformed |
| Lexicons.Lexicon.GetItemsWithIndex | src/spanglish/Lexicon.java:179-196 | null for an index outside 0..9, otherwise the stored items carrying that index, in list order |
| Lexicons.Lexicon.GetRandomItems | src/spanglish/Lexicon.java:146-171 | null for fewer than one item; the whole list, untouched, when it is asked for (n >= size for Lexicon, n > size for BiLexicon); otherwise the first n items of the shuffled list, and the list is left re-sorted |
| Lexicons.Lexicon.ReplaceItem | src/spanglish/Lexicon.java:208-221 | replaceItem overwrites the item at a position inside the list with a well-formed item, and changes nothing otherwise (with the corrected guard, see Findings) |
| Lexicons.Lexicon.ReplaceItemAsWritten | src/spanglish/Lexicon.java:208-221 | with the guard as written, a well-formed item at position == size reaches lexicon.get(size) and fails; every other input behaves as ReplaceItem |
| Lexicons.Lexicon.ReplaceInflection | src/spanglish/Lexicon.java:229-242 | replaceInflection overwrites positions 2 and 3 of the item at a position and re-sorts; Lexicon ignores bad input, BiLexicon requires good input (src/spanglish/BiLexicon.java:221-233) |
| Lexicons.Lexicon.SwapItem | src/spanglish/Lexicon.java:250-265 | swapItem succeeds exactly when the existing item is stored (and, for Lexicon, the new one is well formed); then the first equal slot is replaced, and BiLexicon re-sorts (src/spanglish/BiLexicon.java:170-182); on failure nothing changes |
| Lexicons.Lexicon.SwapInflection | src/spanglish/Lexicon.java:273-288 | swapInflection succeeds exactly when the existing item is stored (and, for Lexicon, the new one is well formed), and then changes only the inflection of the first equal slot (src/spanglish/BiLexicon.java:191-210) |
| Lexicons.Lexicon.SwapBit | src/spanglish/Lexicon.java:296-304 | swapBit overwrites one position of one item and nothing else, and does nothing for a position outside the list or the item |
| Lexicons.Lexicon.IsEqual | src/spanglish/Lexicon.java:376-400 | isEqual holds exactly when the two lists hold the same items in the same order |
| Lexicons.Lexicon.FreqOf | src/spanglish/Lexicon.java:411-486 | each freqOf counter returns the number of stored items matching its dialect pattern |
| Lexicons.Lexicon.GetNumOfBitInColumn | src/spanglish/Lexicon.java:622-639 | -1 for a column past the item, otherwise the number of items holding that bit in that column |
| Lexicons.CountingLexiconInv | src/spanglish/Person.java:246-329 | a lexicon holding indices 0..9 in order is a valid Lexicon |
| Lexicons.AdoptKeepsInv | src/spanglish/BiLexicon.java:69-72 | a valid Lexicon list is a valid BiLexicon list, so BiLexicon(Lexicon) starts valid |
| Lexicons.AddKeepsInv | src/spanglish/Lexicon.java:77-100 | addItem keeps the capacity, key uniqueness and key order; an accepted item is stored, the list grows by one and keeps every old item; a refused item changes nothing |
| Lexicons.AcceptedStaysDistinct | src/spanglish/BiLexicon.java:86-112 | an accepted item shares its (index, language) with no stored item, and for a Lexicon its index too |
| Lexicons.FullRefusesAdd | src/spanglish/BiLexicon.java:153-161 | a full lexicon (10 items, or 20 for a BiLexicon) refuses every item and stays as it is |
| Lexicons.SameIndexRefused | src/spanglish/Lexicon.java:88-91 | a Lexicon refuses an item whose index is already stored, whatever its language |
| Lexicons.BiAcceptsOtherLanguage | src/spanglish/BiLexicon.java:97-103 | a BiLexicon with room accepts a well-formed item of a language none of its items has |
| Lexicons.PositionRoundTrip | src/spanglish/Lexicon.java:112-119 | getItem(inLexicon(x)) is x for a stored item |
| Lexicons.WithIndexMembers | src/spanglish/Lexicon.java:179-196 | the items returned for an index are exactly the stored items carrying it |
| Lexicons.WithIndexKeepsDistinct | src/spanglish/Lexicon.java:179-196 | the items returned for an index keep any key distinctness of the list |
| Lexicons.AtMostOnePerIndex | src/spanglish/Lexicon.java:179-196 | in a Lexicon at most one item is returned for an index |
| Lexicons.DrawnFromDistinctPositions | src/spanglish/Lexicon.java:159-164 | the items drawn come from distinct positions of the list |
| Lexicons.DrawLeavesLexiconUnchanged | src/spanglish/Lexicon.java:159-168 | after a draw the re-sorted Lexicon is exactly the list it was before |
| Lexicons.DrawResortsBiLexicon | src/spanglish/BiLexicon.java:121-144 | after a draw a BiLexicon holds the same items, in language-then-index order |
| Lexicons.InflectKeepsPairs | src/spanglish/Lexicon.java:229-242 | replaceInflection never changes an index or a language: the multiset of (index, language) pairs is the same |
| Lexicons.InflectionKeepsPairList | src/spanglish/Lexicon.java:229-242 | overwriting an inflection in place leaves the list of (index, language) pairs as it was |
| Lexicons.InflectKeepsInv | src/spanglish/BiLexicon.java:221-233 | replaceInflection keeps the capacity, key uniqueness and key order |
| Lexicons.InflectInPlace | src/spanglish/Lexicon.java:229-242 | in a sorted lexicon the re-sort after replaceInflection moves nothing: only positions 2 and 3 of one item change |
| TempLexicons.NewEntry | src/spanglish/TempLexicon.java:41-58 | a new entry has count 1 and counts the item given |
| TempLexicons.HeardPosition | src/spanglish/TempLexicon.java:116-138 | the position found is the first entry counting the item; -1 exactly when no entry counts it |
| TempLexicons.ScanMax | src/spanglish/TempLexicon.java:161-202 | the running maximum's position lies inside the scanned entries |
| TempLexicons.TempLexicon.Empty | src/spanglish/TempLexicon.java:29-33 | a new buffer is empty |
| TempLexicons.TempLexicon.FromItem | src/spanglish/TempLexicon.java:41-58 | a buffer built from an item holds one entry, heard once |
| TempLexicons.TempLexicon.HeardItem | src/spanglish/TempLexicon.java:116-138 | heardItem returns the first position of the entry counting the item, or -1 |
| TempLexicons.TempLexicon.NumTimesHeard | src/spanglish/TempLexicon.java:145-153 | numTimesHeard returns the stored count, or 0 for an item never heard |
| TempLexicons.TempLexicon.HearItem | src/spanglish/TempLexicon.java:71-108 | hearItem returns -1 for a malformed item and changes nothing; otherwise it bumps the item's entry or appends a new one and re-sorts, and returns the new count |
| TempLexicons.TempLexicon.GetMostHeardWithIndex | src/spanglish/TempLexicon.java:161-202 | getMostHeardWithIndex returns the first most heard item of that index, or null |
| TempLexicons.TimesHeardPermutation | src/spanglish/TempLexicon.java:103-106 | re-sorting a buffer with one entry per item changes no count |
| TempLexicons.AppendNewKeepsDistinct | src/spanglish/TempLexicon.java:89-107 | appending an entry for a new item keeps one entry per item |
| TempLexicons.HearAddsEntry | src/spanglish/TempLexicon.java:89-107 | a new item gets an entry of its own with count 1; the buffer grows by one and is in key order |
| TempLexicons.NewEntryFound | src/spanglish/TempLexicon.java:89-107 | after the re-sort the new item is counted once |
| TempLexicons.BumpCounts | src/spanglish/TempLexicon.java:79-86 | bumping entry p adds one to the count found there and to no other |
| TempLexicons.HearKnownCounts | src/spanglish/TempLexicon.java:79-86 | hearing a known item adds one to its count and leaves every other count alone |
| TempLexicons.HearNewCounts | src/spanglish/TempLexicon.java:89-107 | hearing a new item leaves every other item's count alone |
| TempLexicons.HearCountsOne | src/spanglish/TempLexicon.java:71-108 | hearItem counts one more hearing of the item and of nothing else |
| TempLexicons.HearKeepsInv | src/spanglish/TempLexicon.java:71-108 | hearItem keeps every count positive and one entry per item |
| TempLexicons.ScanMaxFindsFirstMaximum | src/spanglish/TempLexicon.java:161-202 | the max-scan settles on a position holding the largest count, and no earlier entry has that count |
| TempLexicons.EntriesWithIndexMembers | src/spanglish/TempLexicon.java:161-202 | the entries scanned for an index are exactly the stored entries with that index |
| TempLexicons.MostHeardIsFirstMaximum | src/spanglish/TempLexicon.java:161-202 | null exactly when no entry has the index; otherwise the item of a stored entry with that index, heard at least as often as any other and strictly more often than every earlier one |
| Space.Norm | src/spanglish/TorusWorld.java:201-220 | xnorm and ynorm return a value in [0, size) congruent to the input, and an input already in range unchanged |
| Space.NormIdempotent | src/spanglish/TorusWorld.java:201-220 | wrapping twice is wrapping once |
| Space.Wrap | src/spanglish/TorusWorld.java:201-220 | the add-size-while-negative loop followed by the remainder computes the wrapped coordinate |
| Space.World.XNorm | src/spanglish/TorusWorld.java:201-207 | xnorm wraps onto the width of the grid |
| Space.World.YNorm | src/spanglish/TorusWorld.java:214-220 | ynorm wraps onto the height of the grid |
| Space.NewRegion | src/spanglish/Region.java:38-63 | the constructor raises xMin and yMin to 0 and lowers xMax to sizeX - 1 but yMax only to sizeY, keeps bounds already in range, and sets width and height from the clamped bounds |
| Space.YClampLeavesGrid | src/spanglish/Region.java:38-63 | the y clamp admits a row one past the grid |
| Space.ModelRegionsOnGrid | src/spanglish/Model.java:251-256 | home, school and work lie on the grid; home and school share rows 11 to 15 across the width; school and work share no cell |
| Space.RandomPoint | src/spanglish/Region.java:71-81 | getRandomPoint on a region that lies on the grid always yields a point of the region |
| Space.RandomPointReachesRegion | src/spanglish/Region.java:71-81 | every point of the region is the getRandomPoint of some pair of draws |
| Space.RandomRegionPoint | src/spanglish/Person.java:1198-1216 | getRandomRegionPoint yields null exactly when there are no regions, and a point on the grid when every region lies on it |
| Space.RandomRegionPointSkipsLast | src/spanglish/Person.java:1198-1216 | getRandomRegionPoint yields the only region's point when there is one, and with two or more regions a point of a region other than the last |
| Space.Step | src/spanglish/TorusWorld.java:70-71 | a displacement draw nextInt(3) - 1 lies in -1..1 |
| Space.World.constructor | src/spanglish/TorusWorld.java:18-20 | a new world has a fresh grid of the model's size with every cell empty |
| Space.World.OpenInRowMembers | src/spanglish/TorusWorld.java:143-165 | a point is listed for a row exactly when it is a free cell at the wrapped position of a scanned column, and a row yields at most one point per column |
| Space.World.OpenInWindowMembers | src/spanglish/TorusWorld.java:143-165 | getOpenNeighborLocations lists exactly the free cells of the window, wrapped onto the torus |
| Space.World.OpenInWindowBound | src/spanglish/TorusWorld.java:143-165 | the window yields no more points than it has cells |
| Space.World.ClippedOpenAtMostNine | src/spanglish/GridWorld.java:223-250 | GridWorld's clipped window yields at most nine points, each a free cell on the grid at most one step from the centre |
| Space.World.EmptyRowsEmptyWindow | src/spanglish/TorusWorld.java:173-193 | a scan whose column range is empty finds no cell and nobody |
| Space.World.OthersInWindowMembers | src/spanglish/TorusWorld.java:173-193 | getNeighbors never lists the agent itself and lists only occupants of scanned cells |
| Space.World.OthersInRowMembers | src/spanglish/GridWorld.java:257-283 | a row scan never lists the agent itself and lists only occupants of the row's scanned cells |
| Space.World.NeighborsEmptyAcrossEdge | src/spanglish/TorusWorld.java:173-193 | when the window crosses the left or right edge (with 2r below the width) TorusWorld.getNeighbors finds nobody |
| Space.World.OccupantsInRegionMembers | src/spanglish/Region.java:140-154 | getPeopleInRegion returns at most one occupant per cell of the region, each found on a cell of the region |
| Space.World.OccupantsInColumnMembers | src/spanglish/Region.java:140-154 | one column of the scan returns at most one occupant per row, each found in that column |
| Space.World.MovePersonTo | src/spanglish/GridWorld.java:63-86 | movePersonTo fails with no change for a target off the grid or occupied; otherwise the target holds the person, the recorded cell is emptied whatever it held, every other cell is unchanged, and the recorded x and y are the target |
| Space.World.MoveObject | src/spanglish/TorusWorld.java:34-52 | moveObject wraps the target; it fails with no change when that cell is occupied, otherwise it makes the same move as movePersonTo; a zero offset from an occupied recorded cell always fails |
| Space.World.OpenNeighbors | src/spanglish/TorusWorld.java:114-165 | getOpenNeighborLocations returns the free cells of the (2r+1) by (2r+1) window row by row, wrapped |
| Space.World.ClippedOpenNeighbors | src/spanglish/GridWorld.java:223-250 | GridWorld.getOpenNeighborLocations returns the free cells of the 3 by 3 window clipped to the grid, centre included |
| Space.World.ClippedNeighbors | src/spanglish/GridWorld.java:257-283 | GridWorld.getNeighbors returns the agents other than the person in the clipped 3 by 3 window |
| Space.World.Neighbors | src/spanglish/TorusWorld.java:173-193 | TorusWorld.getNeighbors scans the plain ranges between the wrapped ends of the window |
| Space.World.ScanOthers | src/spanglish/TorusWorld.java:178-191 | the nested scan lists the agents other than the person in the given ranges, row by row |
| Space.World.PeopleInRegion | src/spanglish/Region.java:140-154 | getPeopleInRegion returns the occupants of the rectangle, column by column |
| Space.World.RegionIsFull | src/spanglish/Region.java:162-170 | isFull holds exactly when the occupants number at least (height - 3) * (width - 3) |
| Space.World.MovePersonToRegion | src/spanglish/GridWorld.java:156-173 | nothing happens when the region is full, and a failed placement changes neither the grid nor the recorded cell; a successful placement puts the person on a cell of the region that holds them, empties the cell they recorded before, and keeps every other cell |
| Space.World.MovePersonToAnyRegion | src/spanglish/GridWorld.java:180-211 | nothing happens when every region is full, and a failed placement changes neither the grid nor the recorded cell; a placement lands in the only region, or with two or more regions in one other than the last, on a cell that holds the person, with the cell recorded before emptied and every other cell kept |
| Space.World.MoveInRegion | src/spanglish/TorusWorld.java:61-101 | moveObjectInRegion fails with no change to grid or recorded cell when the 3 by 3 window has no free cell; a success moves the person one wrapped step at most per axis, onto a cell of one of its regions that holds them, empties the cell left, and keeps every other cell |
| Space.World.ClippedMoveInRegion | src/spanglish/GridWorld.java:100-149 | GridWorld.moveObjectInRegion fails with no change to grid or recorded cell, or moves the person at most one cell per axis onto a cell of one of its regions that holds them, empties the cell left and keeps every other cell |
| Agents.AgeClassOf | src/spanglish/Person.java:604-616 | the age class is always one of child, student and adult |
| Agents.AgeClassRules | src/spanglish/Person.java:604-650 | updateStats' age class is child below 6, student below 18 and adult from 18; each class has exactly one region, on the grid; the sight radius is 10 exactly from 18 to 49 and 3 exactly below 10 or from 50 |
| Agents.StatusOf | src/spanglish/Person.java:402-437 | calcStatus, for codes in range, is at least ten points per age class; above that it adds at most 10 for non-latinos and at most 6 plus 2 per generation for latinos |
| Agents.RolesOutrankOrdinaryPeople | src/spanglish/Teacher.java:113-116 | the fixed status 40 of teachers, babysitters and attractors is above every ordinary person's until a latino family reaches its seventh generation, which can reach 40 |
| Agents.NativeItems | src/spanglish/Person.java:246-329 | createEnglishLexicon and createSpanishLexicon produce ten items |
| Agents.NativeItemsShape | src/spanglish/Person.java:246-329 | item i of a native lexicon has index i and the speaker's language; black speakers get AAE items and white speakers Standard English items |
| Agents.NativeItemsValid | src/spanglish/Person.java:246-329 | a native lexicon is a valid Lexicon and a valid BiLexicon |
| Agents.BirthRace | src/spanglish/Person.java:164-214 | a child is white exactly when both parents are; it always has a parent's race; with one white parent it takes the other parent's race |
| Agents.StudentL2Negative | src/spanglish/Person.java:734-735 | because (1 / 60) is integer division, a student's second-lexicon share is negative at every age |
| Agents.RouteOf | src/spanglish/Person.java:693-793 | hearItem ignores an item exactly when a latino child hears English or the age class is out of range |
| Agents.RoutingRules | src/spanglish/Person.java:693-793 | hearItem sends an item to the second lexicon only for an adult whose first lexicon is not a BiLexicon |
| Agents.AdultRouting | src/spanglish/Person.java:764-791 | an adult's item goes to the GA below 0.15, to the first lexicon below 0.30, to the second lexicon below 0.5 unless bilingual, and otherwise to the buffer |
| Agents.DrawAt | src/spanglish/GeneticAlg.java:156-210 | a missing draw reads as a draw long enough for crossing and mutation |
| Agents.Person.Born | src/spanglish/Person.java:164-214 | the birth constructor: age 0, child at home, generation one more than the first parent's, mating ID 100 times the generation (computed before race and class are set), status of a white lower-class child, race by the parents' rule, class of one parent, parents [p1, p2], an empty first lexicon |
| Agents.Person.Settler | src/spanglish/Person.java:125-156 | Person(r): an adult aged 18 to 74 with the native lexicon of race r, the work region, and a status computed before the class is set; either moved onto a cell of work that holds it, with the cell (0, 0) it recorded emptied and every other cell kept, or left at (0, 0) with the grid unchanged |
| Agents.Person.NewAttractor | src/spanglish/Attractor.java:11-15 | Attractor(r): the race constructor's adult with status 40, then an age redrawn in 12..25 that leaves the age class adult and the region work; placed as Person(r) places it: onto a cell of work with (0, 0) emptied and every other cell kept, or left at (0, 0) with the grid unchanged |
| Agents.Person.NewTeacher | src/spanglish/Teacher.java:25-65 | Teacher(): white or black, upper or middle class, aged 22 to 63, adult, status 40, English lexicon, regions school and work |
| Agents.Person.CloneTeacher | src/spanglish/Teacher.java:71-95 | Teacher(Person): race, gender and class copied, both lexicon objects shared, age 22, status 40, regions school and work, age class left at child |
| Agents.Person.NewBabySitter | src/spanglish/BabySitter.java:22-67 | BabySitter(): latino, black or white by the race draw, female, middle or lower class, aged 22 to 63, adult, status 40, home region, a Spanish lexicon exactly when latino |
| Agents.Person.CloneBabySitter | src/spanglish/BabySitter.java:73-96 | BabySitter(Person): race, gender and class copied, both lexicon objects shared, age 22, status 40, home region, age class left at child |
| Agents.Person.IsFertile | src/spanglish/Person.java:974-981 | only an ordinary adult can be fertile (teachers, babysitters and attractors never are: src/spanglish/Teacher.java:125-127), and a fertile person never retires |
| Agents.Person.Retire | src/spanglish/Teacher.java:135-142 | only teachers and babysitters retire, and only from age 65 |
| Agents.Person.Die | src/spanglish/Person.java:993-1042 | only an ordinary person past 50 can die, and only on a tick that is a whole year; from 85 on death is certain |
| Agents.Person.InOwnRegion | src/spanglish/Person.java:1150-1165 | inRegion() holds exactly when the recorded cell lies in one of the person's regions |
| Agents.Person.UpdatePersonStats | src/spanglish/Person.java:604-656 | updateStats sets the age class, region, sight radius and status the age calls for, and moves the person only when outside that region; a move lands in the region on a cell that holds the person, empties the cell left and keeps every other cell, and a failed move changes neither grid nor position |
| Agents.Person.UpdateStats | src/spanglish/Teacher.java:113-116 | teachers and babysitters only reset the status to 40; an attractor runs Person's updateStats and then forces the status to 40 (src/spanglish/Attractor.java:43-46) |
| Agents.Person.ChangeToBiLexicon | src/spanglish/Person.java:1127-1136 | with at least one English item before the age of 9 the first lexicon becomes a new BiLexicon over the same list; otherwise nothing changes |
| Agents.Person.UpdateAge | src/spanglish/Person.java:572-595 | attractors never age (src/spanglish/Attractor.java:24-25); otherwise the tick count goes up by one, the age goes up exactly on a whole year, and the first lexicon turns bilingual exactly for a latino student of a later generation on that tick who still qualifies |
| Agents.Person.AgeOneYear | src/spanglish/Person.java:579-593 | on a whole year: one year older, updateStats, and the switch to a BiLexicon exactly for a qualifying latino student |
| Agents.Person.AddToFirstLexicon | src/spanglish/Person.java:839-855 | addToFirstLexicon accepts exactly what addItem on the first lexicon accepts, and leaves the list as addItem does |
| Agents.Person.AddToSecondLexicon | src/spanglish/Person.java:865-893 | when it goes ahead, a second lexicon holding just the item is created, or the item is added to the existing one; otherwise nothing changes |
| Agents.Person.SecondFires | src/spanglish/Person.java:865-880 | addToSecondLexicon goes ahead only for a four-position item missing from the first lexicon, with a buffer that has heard it at least once, and always once it was heard threshold times |
| Agents.Person.AddToTempMemBuffer | src/spanglish/Person.java:903-917 | false for a malformed item; a missing buffer is created holding the item once; an existing buffer is left as it is |
| Agents.Person.InFirstLang | src/spanglish/Person.java:925-938 | inFirstLang holds exactly when the first lexicon stores an equal item |
| Agents.Person.HearByGA | src/spanglish/Person.java:713-718 | the GA branch: the lexicons keep their (index, language) pairs and their shape, and the buffer is created or kept as addToTempMemBuffer does |
| Agents.Person.ApplyGA | src/spanglish/GeneticAlg.java:115-146 | calcInsertion on a fresh GA keeps the lexicons' (index, language) pairs and the first lexicon's shape |
| Agents.Person.HearItem | src/spanglish/Person.java:693-793 | hearItem does what its route says: nothing when ignored; addItem on the first lexicon; addToSecondLexicon; addToTempMemBuffer; or the GA, which keeps the (index, language) pairs; the first lexicon keeps its shape throughout |
| Agents.Person.HearItems | src/spanglish/Person.java:669-681 | nothing changes for a missing or empty list; otherwise only the second lexicon and the buffer change besides the status, which is recomputed, and the first lexicon keeps its shape |
| Agents.Person.ChooseSpeaker | src/spanglish/Person.java:464-483 | nobody for a child or an empty neighbourhood; otherwise the first neighbour of maximum status, listened to exactly when its status is at least the person's own and it is not a child |
| Agents.Person.Listen | src/spanglish/Person.java:529-562 | listen changes nothing when refused (an empty speaker lexicon, a latino hearing a non-latino babysitter, a non-white hearing a white babysitter); otherwise only the status, the second lexicon and the buffer change, and the status is recomputed when at least one word is spoken |
| Agents.Person.Refuses | src/spanglish/Person.java:529-545 | listen refuses a speaker with an empty first lexicon; a speaker with words is refused only when it is a babysitter of another race |
| Agents.Person.ListenToParents | src/spanglish/Person.java:492-520 | nothing without parents; otherwise only the status, the second lexicon and the buffer change |
| Agents.Person.Step | src/spanglish/Person.java:464-483 | step does nothing for teachers, babysitters and attractors (src/spanglish/Teacher.java:104-105); for others only the status, the second lexicon and the buffer change |
| Genetics.CandidatesFromLexicons | src/spanglish/GeneticAlg.java:156-183 | every candidate carries the heard index and is stored in one of the two lexicons; for an index below maxItems, every first-lexicon item with that index is a candidate |
| Genetics.ChooseIsCandidate | src/spanglish/GeneticAlg.java:175-183 | the chosen candidate is one of the candidates |
| Genetics.CrossTakesFromParents | src/spanglish/GeneticAlg.java:192-209 | the crossed item has the heard index and the candidate's language, and takes each later bit from one of the two items |
| Genetics.MutateOnlyInflection | src/spanglish/GeneticAlg.java:292-305 | mutate leaves positions 0 and 1 alone and flips exactly the positions its draws say, 1 becoming 0 and anything else 1 |
| Genetics.CommitKeepsIndexAndLanguage | src/spanglish/GeneticAlg.java:131-145 | the write-back never changes a stored item's index or language |
| Genetics.CommitKeepsInv | src/spanglish/GeneticAlg.java:131-145 | the write-back keeps the lexicon's capacity, key uniqueness and key order |
| Genetics.GeneticAlg.constructor | src/spanglish/GeneticAlg.java:83-102 | a new GA holds the listener's lexicons, the buffer as it is now and the heard item, with no changed or new item |
| Genetics.GeneticAlg.CrossOverItem | src/spanglish/GeneticAlg.java:156-210 | no change when no stored item has the heard index; otherwise the chosen candidate becomes changedItem and the crossed item newItem |
| Genetics.GeneticAlg.CrossWith | src/spanglish/GeneticAlg.java:192-209 | the crossing loop builds the crossed item |
| Genetics.GeneticAlg.MicroFitnessCount | src/spanglish/GeneticAlg.java:218-237 | the count calcMicroFitness uses is the buffer's count for the heard item, or 1 when there is no buffer or it lacks the item |
| Genetics.GeneticAlg.Mutate | src/spanglish/GeneticAlg.java:292-305 | mutate replaces newItem by its mutation and leaves changedItem alone |
| Genetics.GeneticAlg.Commit | src/spanglish/GeneticAlg.java:131-145 | on acceptance, the first lexicon's inflection is swapped if it stores the candidate and the candidate is not USAS, else the second lexicon's if it stores it; nothing changes otherwise |
| Genetics.GeneticAlg.CalcInsertion | src/spanglish/GeneticAlg.java:115-146 | no candidate means no changed item, no new item and no lexicon change; otherwise the chosen candidate, crossed and mutated, is written back by the commit rule when accepted |
| Census.RemoveFirstCounts | src/spanglish/Model.java:641-643 | personList.remove(p) takes out exactly one occurrence of p when there is one, and changes nothing otherwise |
| Census.RemoveFirst | src/spanglish/Model.java:641-643 | ArrayList.remove(p) shortens the list by one exactly when p is in it, and returns it unchanged otherwise |
| Census.RemoveFirstAppend | src/spanglish/Model.java:641-643 | removing someone the babies appended later never include gives the same list before or after the append |
| Census.RemoveAllCounts | src/spanglish/Model.java:615-709 | a turn's run of removals never adds anyone, and leaves everyone not removed exactly as often as before |
| Census.RemoveFirstSubset | src/spanglish/Model.java:641-643 | remove(p) never adds anyone |
| Census.RemoveFirstOnce | src/spanglish/Model.java:641-643 | removing someone present shortens the list by one; in a list without repeats, that person is then gone |
| Census.RemoveFirstKeepsDistinct | src/spanglish/Model.java:641-643 | one removal keeps a list without repeats, never adds anyone, and leaves nothing of the person removed |
| Census.RemoveAllGone | src/spanglish/Model.java:615-709 | in a list without repeats, everyone who departs during a turn is gone from it afterwards, and the list still has no repeats |
| Census.RemoveAllAppend | src/spanglish/Model.java:705-707 | removals of people outside the appended babies commute with appending them |
| Census.SelectSnoc | src/spanglish/Model.java:486-554 | one more agent goes to the side its flag names |
| Census.RemoveAllSnoc | src/spanglish/Model.java:641-643 | one more removal at the end of the run is remove(p) on the result |
| Census.DepartBook | src/spanglish/Model.java:633-643 | a departure during the turn, seen on a list already thinned and extended by agents the departing person is not among, is one more entry in the run of removals |
| Census.LatinoBook | src/spanglish/Model.java:641-692 | one turn of ageAndReproduce on latinoList: a possible removal of p and a possible latino baby keep latinoList equal to the earlier list minus those departed plus the latino babies, in order |
| Census.SelectPrefix | src/spanglish/Model.java:486-554 | one more flagged agent, seen through a prefix of the list |
| Census.SelectWithin | src/spanglish/Model.java:486-554 | everyone selected comes from the list selected from |
| Census.SelectSplits | src/spanglish/Model.java:486-554 | the two sides of a split together hold exactly the original list, as a multiset |
| Census.TallyPartitions | src/spanglish/Model.java:1155-1191 | calcStats' black and latino adults never outnumber the adults, nor black and latino students the students; with valid codes the race counters add up to the population, as do the age-class counters |
| Census.CountStep | src/spanglish/Model.java:1163-1190 | one more person raises the race total and the age-class total by one each (for valid codes) and keeps the sub-counts below their class counts |
| Census.Bins | src/spanglish/Model.java:1004-1035 | indexFreqOfUSAS has one bin per index 0 .. maxItems - 1 |
| Census.SumBump | src/spanglish/Model.java:1018-1020 | raising one bin by one raises the total by one |
| Census.BinsSnoc | src/spanglish/Model.java:1018-1020 | one more USAS item with index k raises bin k by one and no other bin |
| Census.BinsSum | src/spanglish/Model.java:1004-1035 | with every index in range, the bins add up to the number of USAS items counted |
| Census.ZeroSum | src/spanglish/Model.java:1007-1008 | a fresh table of bins sums to zero |
| Census.HearAllAppend | src/spanglish/Model.java:1063-1072 | hearing one person's items after another's is hearing their concatenation |
| Census.MostHeardHasIndex | src/spanglish/Model.java:1087-1104 | getMostHeardWithIndex(i) answers with an item of index i |
| Census.CommonShape | src/spanglish/Model.java:1087-1106 | the common lexicon holds at most one item per index, in strictly ascending index order, all below maxItems (hence at most maxItems items), each the most heard item of its index |
| Population.PickPerson | src/spanglish/Model.java:1236-1251 | getRandomPersonFromArray gives null exactly for an empty list, the only element of a one-element list, and otherwise a member of the list |
| Population.Drawn | src/spanglish/Model.java:1248-1250 | every random pick from a list of two or more is a member of the list |
| Population.PickOfClass | src/spanglish/Model.java:1258-1289 | null for an empty list; the only element of a one-element list whatever its class; otherwise the first of at most size + 1 picks that has the age class, or null when none of them has it |
| Population.PickOfClassAndGender | src/spanglish/Model.java:1296-1327 | null exactly for an empty list; otherwise a member: the only element of a one-element list, the first of at most size + 1 picks that matches both age class and gender, or, when none matches, the last pick drawn, whatever its class and gender |
| Population.WhiteYouthMembers | src/spanglish/Model.java:583-590 | whiteFlight's candidates are exactly the white people under 25 in personList |
| Population.MateCandidatesSound | src/spanglish/Model.java:730-747 | every mate candidate is in personList, fertile, of the other gender, not the seeker and unmarried |
| Population.LoneSeekerHasNoCandidate | src/spanglish/Model.java:736-739 | a person alone in personList finds no candidate |
| Population.DemographicsIndex | src/spanglish/Model.java:1163-1191 | the (race, age class) pairs calcStats reads are those of personList, one per person, in order |
| Population.TallyOfPeople | src/spanglish/Model.java:1155-1191 | calcStats' sub-counts stay below their class counts; the race counters add up to the population when every race is valid, and so do the age-class counters when every age class is valid |
| Population.UsasOfMembers | src/spanglish/Model.java:1022-1023 | USASList holds only USAS items taken from the lexicons scanned |
| Population.TaggedSort | src/spanglish/Model.java:1411-1419 | sorting (status, person) pairs by status keeps the length and the pairs, orders the statuses ascending, permutes the people, and keeps each person with its status |
| Population.BinUsas | src/spanglish/Model.java:1013-1025 | the inner loop of calcIndexFreqOfUSAS appends the lexicon's USAS items to USASList and keeps the bins equal to the index counts of USASList |
| Population.BinPeople | src/spanglish/Model.java:1010-1026 | the outer loop collects every person's USAS items in order and bins them by index |
| Population.HearEach | src/spanglish/Model.java:1060-1068 | hearing a lexicon's items one by one leaves the TempLexicon as hearing the whole run |
| Population.HearFirstLexicons | src/spanglish/Model.java:1057-1082 | a fresh TempLexicon that has heard every first-lexicon item of the people taken (every one, or only latinos), in order |
| Population.CommonTable | src/spanglish/Model.java:1085-1106 | the common lexicon is the most heard item of each index below maxItems that was heard at all, by index |
| Population.Grow | src/spanglish/Model.java:664-665 | the babies list grows by one exactly when a baby was born |
| Population.GrowFlags | src/spanglish/Model.java:686-691 | the latino flags grow with the babies list |
| Population.TurnBook | src/spanglish/Model.java:627-692 | after turn i, personList is the initial list minus those departed in turns 0 .. i, and latinoList also gains the latino babies born so far, in order |
| Population.OnGridKeptAndBorn | src/spanglish/Model.java:641-707 | those who stay and the babies are all on the grid |
| Population.Model.constructor | src/spanglish/Model.java:143-147 | the model starts with empty visibleList, personList and latinoList and no statistics |
| Population.Model.WhiteFlight | src/spanglish/Model.java:580-600 | nothing changes without a white person under 25; otherwise the one picked is removed once from visibleList and from personList, which shrinks by one, and is gone from it when it had no repeats |
| Population.Model.Immigrate | src/spanglish/Model.java:563-571 | a new latino adult speaking only Spanish is appended to latinoList, personList and visibleList; if it ends in work, the grid holds it there, the cells it passed through ((0, 0) and the one the constructor chose) are empty and every other cell is kept; otherwise it is still at (0, 0) and the grid is unchanged |
| Population.Model.Marry | src/spanglish/Model.java:765-768 | each becomes the other's spouse |
| Population.Model.CollectMates | src/spanglish/Model.java:725-747 | the loop gathers exactly the mate candidates |
| Population.Model.FindMate | src/spanglish/Model.java:719-758 | a married person's mate is the spouse; otherwise a random candidate, fertile, unmarried and of the other gender, married to the seeker when the marriage coin says so; nobody else changes |
| Population.Model.FindMateAsWritten | src/spanglish/Model.java:719-758 | findMate as written calls marry(p, null) when there is no candidate and the marriage coin is true, which fails |
| Population.Model.MarryAsWritten | src/spanglish/Model.java:765-768 | marry(p, null) fails exactly when the second person is null |
| Population.Model.CalcStats | src/spanglish/Model.java:1155-1194 | the counters are the tally of personList's races and age classes, the total is its size, and the partition facts hold; the calcCommonLex and calcIndexFreqOfUSAS calls that end calcStats are the separate rows below |
| Population.Model.CalcIndexFreqOfUSAS | src/spanglish/Model.java:1004-1035 | USASList holds every first-lexicon USAS item of personList, in order, and the bins count them by index and sum to their number |
| Population.Model.CalcCommonLex | src/spanglish/Model.java:1044-1108 | commonLexTotal and commonLex are the most heard first-lexicon items per index over everyone and over latinos, at most maxItems each, in ascending index order |
| Population.Model.CreatePerson | src/spanglish/Model.java:776-788 | no baby exactly when home is full; otherwise a fresh newborn of the two parents, with the birth race rule, whose recorded cell lies in home: either it was moved there, the grid holds it, the cell (0, 0) it recorded is emptied and every other cell kept, or it stays at (0, 0) with the grid unchanged |
| Population.Model.Depart | src/spanglish/Model.java:633-643 | a person leaves exactly when die or retire says so; the leaver is removed once from personList and latinoList and the spouse is unmarried; nothing else changes |
| Population.Model.Reproduce | src/spanglish/Model.java:655-692 | a birth is tried only for a fertile person of a known race on the birth coin; the mate is the spouse or a random candidate; a baby comes exactly when a mate was found and home is not full, with the person and the mate as parents |
| Population.Model.AgeAndDepart | src/spanglish/Model.java:627-643 | updateAge then a possible departure: personList and latinoList lose exactly the leaver, and no spouse link points anywhere new |
| Population.Model.Breed | src/spanglish/Model.java:655-692 | a latino baby, and only a latino baby, is appended to latinoList; a baby is a fresh newborn at home |
| Population.Model.Turn | src/spanglish/Model.java:627-692 | one pass of the loop: personList loses the leaver if any, latinoList loses it and gains a latino baby, and a baby is a fresh newborn at home |
| Population.Model.CreateTeacher | src/spanglish/Model.java:797-827 | a new teacher is a non-latino clone of someone in personList with the same race and gender, sharing its first lexicon, appended to visibleList; none is made for an empty personList |
| Population.Model.CreateBabySitter | src/spanglish/Model.java:836-844 | a babysitter is created exactly when personList is not empty, as a clone of someone in it, appended to visibleList |
| Population.Model.HireTeachers | src/spanglish/Model.java:700-703 | at most the number asked for are hired, all non-latino teachers, appended to visibleList |
| Population.Model.HireBabySitters | src/spanglish/Model.java:704-706 | exactly the number asked for are hired unless personList is empty, appended to visibleList |
| Population.Model.Step | src/spanglish/Model.java:627-692 | one turn seen from the whole population: everyone stays on the grid, personList only loses the leaver, latinoList also gains a latino baby, and a baby is a new agent outside the population whose Position object is its own, shared with no one in it |
| Population.Model.KeptStep | src/spanglish/Model.java:627-692 | one turn keeps the loop's bookkeeping invariant |
| Population.Model.TakeTurns | src/spanglish/Model.java:626-692 | after the loop personList is the initial list minus everyone who departed, and latinoList as well, plus the latino babies in order |
| Population.Model.TurnsAndBirths | src/spanglish/Model.java:622-707 | visibleList keeps those who stayed and gains the babies; personList loses those departed and gains the babies; latinoList loses those departed and gains the latino babies; everyone is on the grid |
| Population.Model.Admit | src/spanglish/Model.java:705-707 | addAll(babies) on visibleList and personList, keeping everyone on the grid |
| Population.Model.AgeAndReproduce | src/spanglish/Model.java:615-709 | the whole step: the lists as TurnsAndBirths says, then new teachers and babysitters (no more than departed, and exactly as many babysitters when personList is not empty) appended to visibleList |
| Population.Model.OrderByStatus | src/spanglish/Model.java:536-537 | visibleList sorted by ascending status is a permutation of the old one |
| Population.Model.StatusOrder | src/spanglish/Model.java:536-537 | the list sorted with PersonStatusComparator is a permutation of the people given, in ascending status order |

## Left out

- The GUI model, the Repast display and schedule, report files, console printing, the `testMeans` averaging and the automatic restart inside `Model.step`: these are presentation and run control, not simulation logic.
- Floating-point arithmetic: the micro and macro fitness of the genetic algorithm, the death curve, the mate probability, birth rates, the move probability and the percentages and `calcFreqOf*` ratios. Each test against a double is a boolean coin. The hearItem routing uses an exact `real` draw so that the unreachable student branch can be shown.
- `java.util.Random`, `Random.uniform` and `SimUtilities.shuffle`: every draw is a parameter (`nextInt(n)` is a draw taken modulo n, a shuffle is a permutation given as draws).
- Population.Model.CreateTeacher: the source redraws without bound while the pick is latino and fails on an empty personList; the model makes one attempt per draw given and makes no teacher when the draws run out, so HireTeachers and AgeAndReproduce promise at most, not exactly, one new teacher per teacher who retired.
- Population.Model.CreateBabySitter: on an empty personList the source fails on a null person; the model makes no babysitter.
- Space.World.MovePersonToRegion: the unbounded retry loop of movePersonToRegion is one attempt per draw given; when the draws run out the person stays where it was.
- Space.World.MoveInRegion: the `while (!inRegion…)` retry loops of both moveObjectInRegion versions likewise run over a finite list of draws.
- Aliasing of `int[]` items between agents: a heard item array is stored by reference, so a later in-place `replaceInflection` in one lexicon writes through to every lexicon holding the same array. Items here are values (`seq<int>`), so that write-through is not reproduced. The sharing of a whole list object by `BiLexicon(Lexicon)` and by the teacher and babysitter clones is kept.
- Lexicons.Lexicon.ReplaceInflection: uses the corrected guard `pos >= size`; the as-written failure at pos == size is exhibited for replaceItem only, which shares the guard.
- Drawing and printing (`Person.draw`, colours, the `print` methods of Person, Lexicon, BiLexicon and TempLexicon).
- The initial population (`createPeople`, `calcInitialClass`, the race mix and random ages): only the shape of the native lexicons is modelled.
- The `Model.step` loop and the random activation orders of `activatePeopleToTakeSteps`: only the status ordering (a sort of visibleList by ascending status) is modelled, and `Person.move` is the grid moves of the Space module.
- Population.Model.OrderByStatus: states a sorted permutation; the stability of `Collections.sort` among equal statuses is not stated.
- Population.Model.StatusOrder: likewise states a sorted permutation and not the stability.
- Population.Model.CalcStats: recounts the counters only; the calls to calcCommonLex and calcIndexFreqOfUSAS that end the source's calcStats are the separate methods CalcCommonLex and CalcIndexFreqOfUSAS, because one contract restating all three results across the calls is too costly to verify. The three share no state, so running them one after the other yields what calcStats yields.
- Population.Model.CalcCommonLex: the second-lexicon tables are left empty, as the source leaves them; the second-lexicon tallies it builds are not read and are not modelled.
- Population.Model.AgeAndReproduce: does not restate which person departs on which turn; Turn, Depart and AgeAndDepart state that per person.
- Population.Model.AgeAndDepart: a person who departs keeps its own spouse field and its grid cell, as in the source; the model does not state anything about the cell.
- Agents.Person.Listen: `words` items are drawn from the speaker's lexicon through the given permutation; which items are heard is not restated in the contract.
- Genetics.GeneticAlg.CalcInsertion: the acceptance test `draw < microFitness * macroFitness` is the `accept` coin; calcOpenness and the fitness values are not modelled.
- Agent identity: every agent carries a handle from a counter in Model, standing for Java object identity on the grid.

## Findings

| source | as written | input that shows it | evidently intended | confidence | as-written member | corrected member |
|---|---|---|---|---|---|---|
| src/spanglish/Lexicon.java:208-221 | the guard `existingItemIndex > lexicon.size()` lets position size through, and `lexicon.get(size)` throws IndexOutOfBoundsException | a well-formed item (four integers) with position equal to the number of stored items, for example position 0 on an empty lexicon | `existingItemIndex >= lexicon.size()`, so that every position past the last item is ignored | not executed | Lexicons.Lexicon.ReplaceItemAsWritten | Lexicons.Lexicon.ReplaceItem |
| src/spanglish/Model.java:719-768 | findMate calls `marry(p, mate)` on the marriage coin even when no candidate was found, and `marry` then calls `setSpouse` on null | an unmarried fertile person with no acceptable candidate (for example alone in personList) and a marriage draw below marriageProb | marry only when a mate was found | not executed | Population.Model.FindMateAsWritten | Population.Model.FindMate |
