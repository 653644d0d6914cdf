# Boggle solver, modelled in Dafny

This project models the core of `boggle.py`, a small Boggle solver:

- the board (a map from `(row, col)` tiles to letters);
- the eight-cell neighbourhood of a tile, and the adjacency table kept for every tile;
- the word spelled by a path of tiles;
- the dictionary index: full words, plus the non-empty proper prefixes ("stems") used to prune the search;
- the depth-first search. From every tile it records each path that spells a full word. It stops extending a path whose word is not a stem, and never revisits a tile. Finally it collapses the recorded paths into the set of words they spell.

It is written as four modules, one per file:

- `grid.dfy` (`BoggleGrid`):
  - `MakeGrid`, the key set of `make_grid`.
  - `NeighboursOfPosition`.
  - `KeepInGrid`, the list-comprehension filter of `all_grid_neighbours`.
  - `AllGridNeighbours`, the loop that fills the table. It is a method.
  - `PathToWord`.
  - Simple paths, and the bound that a path never has more tiles than the board.
- `dictionary.dfy` (`BoggleDictionary`):
  - `Normalise`, which is `strip()` followed by `upper()`.
  - `Index`, the function specifying the two sets.
  - `GetDictionary`, the nested loops of `get_dictionary`, as a method proved equal to `Index`.
- `search.dfy` (`BoggleSearch`):
  - `Explore` / `ExploreAll` give the recorded paths of `do_search`, in recording order, as pure functions.
  - `DoSearch` / `SearchNeighbours` are the recursive walk as methods. The shared `paths` list is threaded through them, and they are proved to append exactly what `Explore` says.
  - `Search` is proved to return `FoundWords`.
  - Soundness and completeness lemmas.
- `scenarios.dfy` (`BoggleScenarios`): one-tile and 2×2 boards worked through end to end.

The main results:

- **Soundness and completeness modulo pruning.** A word is returned iff some simple adjacent path spells it, the word is a full word, and every non-empty proper prefix of the word is a stem. See `FoundWordsCharacterisation`, and the second `ensures` of `Search`.
- **Completeness with a real index.** With an index built from a word list, every listed word that some simple adjacent path spells is found (`SearchFindsIndexedWords`).
- **Termination.** Every recursive call adds one tile that is not yet on the path, so no path is longer than the board has tiles (`PathLengthBound`, `RecordedPathsBounded`).
- **Adjacency.** The table is symmetric, each list is the order-preserving filter of the eight candidates, and the table's keys are the board's tiles.

Where the code and its surrounding prose disagree, the model follows the code:

- `stems` holds only the proper prefixes `word[:i]` for `1 <= i < len(word)` (`boggle.py:134`). A word's own entry never adds the word itself as a stem.
- A path is recorded only when it spells a full word (`boggle.py:77-78`). The docstring at `boggle.py:89-90` says otherwise.

## Model

| member | source | states |
|---|---|---|
| BoggleGrid.Cells | boggle.py:9-11 | the board's tiles are exactly the (row, col) with 0 <= row < height and 0 <= col < width; there are width*height of them |
| BoggleGrid.MakeGrid | boggle.py:4-11 | the board covers exactly that rectangle (empty for a negative dimension); every tile carries the supplied upper-case letter; size width*height |
| BoggleGrid.NeighboursOfPosition | boggle.py:14-40 | exactly 8 positions; each touches `coords` and none equals it; every touching position is among them; they come in row-major order, i.e. top-left, top-centre, top-right, left, right, bottom-left, bottom-centre, bottom-right |
| BoggleGrid.KeepInGrid | boggle.py:50 | the filter keeps exactly the candidates that are tiles, never lengthens the list, and keeps a row-major list in row-major order |
| BoggleGrid.KeepInGridAll | boggle.py:50 | when every candidate is a tile, the filter returns the candidates unchanged |
| BoggleGrid.InGridNeighbours | boggle.py:49-50 | a tile's stored list holds at most 8 positions, in row-major order: exactly the tiles touching it |
| BoggleGrid.AllGridNeighbours | boggle.py:42-51 | the table's keys are exactly the board's tiles, and each tile maps to its filtered candidate list |
| BoggleGrid.InGridNeighboursSymmetric | boggle.py:23-50 | for tiles a and b, b is listed for a iff a is listed for b |
| BoggleGrid.NeighbourTableSymmetric | boggle.py:42-51 | the table built by all_grid_neighbours is symmetric |
| BoggleGrid.InteriorNeighbours | boggle.py:14-50 | on a rectangular board, a tile away from every edge keeps all 8 candidates, unchanged and in order |
| BoggleGrid.CornerNeighbours | boggle.py:14-50 | the top-left corner of a board at least 2×2 has exactly the 3 neighbours (0,1), (1,0), (1,1) |
| BoggleGrid.TopRightCornerNeighbours | boggle.py:14-50 | the top-right corner of a board at least 2×2 has exactly its 3 in-board neighbours, in listing order |
| BoggleGrid.BottomLeftCornerNeighbours | boggle.py:14-50 | the bottom-left corner of a board at least 2×2 has exactly its 3 in-board neighbours, in listing order |
| BoggleGrid.BottomRightCornerNeighbours | boggle.py:14-50 | the bottom-right corner of a board at least 2×2 has exactly its 3 in-board neighbours, in listing order |
| BoggleGrid.TopEdgeNeighbours | boggle.py:14-50 | a non-corner top-edge tile of a board at least 2 rows high has exactly its 5 in-board neighbours, in listing order |
| BoggleGrid.BottomEdgeNeighbours | boggle.py:14-50 | a non-corner bottom-edge tile of a board at least 2 rows high has exactly its 5 in-board neighbours, in listing order |
| BoggleGrid.LeftEdgeNeighbours | boggle.py:14-50 | a non-corner left-edge tile of a board at least 2 columns wide has exactly its 5 in-board neighbours, in listing order |
| BoggleGrid.RightEdgeNeighbours | boggle.py:14-50 | a non-corner right-edge tile of a board at least 2 columns wide has exactly its 5 in-board neighbours, in listing order |
| BoggleGrid.PathToWord | boggle.py:54-58 | the word has one letter per path position, and letter i is the letter of tile path[i] |
| BoggleGrid.PathToWordPrefix | boggle.py:58 | the word of the first k tiles is the first k letters of the path's word |
| BoggleGrid.PathToWordAppend | boggle.py:58 | extending a path by a tile appends that tile's letter |
| BoggleGrid.AdjacentByTable | boggle.py:81-83 | on a path of tiles, each step goes to a touching tile iff each step goes to a tile the table lists for the previous one |
| BoggleGrid.PathLengthBound | boggle.py:82-83 | a path of tiles with no repeated tile is no longer than the number of tiles |
| BoggleGrid.ExtendSimplePath | boggle.py:81-83 | stepping from a simple path's last tile to a listed neighbour not on the path gives a simple path |
| BoggleGrid.SimplePathPrefix | boggle.py:81-83 | every non-empty prefix of a simple path is a simple path |
| BoggleDictionary.StripTrailing | boggle.py:131 | the result is a prefix of the input; everything dropped is whitespace; the result does not end in whitespace |
| BoggleDictionary.LeadingSpaces | boggle.py:131 | counts the whitespace characters at the start, stopping at the first non-whitespace |
| BoggleDictionary.Strip | boggle.py:131 | strip() never lengthens its input |
| BoggleDictionary.StripShape | boggle.py:131 | strip() keeps a slice of the input with no whitespace at either end |
| BoggleDictionary.StripRemovesSpace | boggle.py:131 | everything strip() removes, before and after the kept slice, is whitespace |
| BoggleDictionary.StripTrimmed | boggle.py:131 | strip() leaves a string with no outer whitespace unchanged |
| BoggleDictionary.UpperChar | boggle.py:131 | upper() maps a to z onto A to Z and keeps every other character |
| BoggleDictionary.Upper | boggle.py:131 | upper() keeps the length |
| BoggleDictionary.UpperShape | boggle.py:131 | upper() leaves no lower-case ASCII letter; it raises each one by case and keeps every other character |
| BoggleDictionary.UpperTrimmed | boggle.py:131 | upper() keeps a stripped string stripped |
| BoggleDictionary.Normalise | boggle.py:131 | the normalised word is never longer than its line |
| BoggleDictionary.NormaliseShape | boggle.py:131 | a normalised word has no outer whitespace and no lower-case letter |
| BoggleDictionary.NormaliseFixed | boggle.py:131 | a word with no outer whitespace and no lower-case letter normalises to itself |
| BoggleDictionary.NormaliseIdempotent | boggle.py:131 | normalising twice is the same as normalising once |
| BoggleDictionary.ProperStems | boggle.py:134-135 | one word's stems are exactly its non-empty proper prefixes; never the word itself |
| BoggleDictionary.StemsBelowStep | boggle.py:134-135 | one more turn of the prefix loop adds word[:i] |
| BoggleDictionary.StemsBelowDone | boggle.py:134-135 | when the prefix loop ends it has added exactly the word's proper stems, for empty and one-letter words too |
| BoggleDictionary.IndexMembers | boggle.py:127-135 | the full words are exactly the normalised lines; the stems are exactly the non-empty proper prefixes of normalised lines |
| BoggleDictionary.GetDictionary | boggle.py:127-137 | the nested loops produce exactly the index of the lines read |
| BoggleDictionary.IndexStep | boggle.py:130-135 | reading one more line adds its normalised word to the full words and its proper stems to the stems |
| BoggleDictionary.StemsAreProperPrefixes | boggle.py:132-135 | a string is a stem iff it is a non-empty proper prefix of some full word |
| BoggleDictionary.IndexPrefixClosed | boggle.py:132-135 | every non-empty proper prefix of every full word is a stem, so pruning a non-stem loses no full word |
| BoggleDictionary.IndexOneLine | boggle.py:131-135 | one line yields one full word, and exactly its proper stems; the word is not its own stem; an empty line adds the empty word and no stem |
| BoggleDictionary.IndexOfNormalisedLines | boggle.py:130-132 | when the lines are already normalised, the full words are exactly the lines |
| BoggleSearch.ExploreSimplePaths | boggle.py:75-83 | every path do_search(path) records is a simple path that extends path |
| BoggleSearch.ExploreAllSimplePaths | boggle.py:81-83 | every path the neighbour loop records is a simple path strictly longer than path |
| BoggleSearch.ExploreFrom | boggle.py:95-96 | every path recorded by do_search([position]) is a simple path starting at that tile |
| BoggleSearch.DoSearch | boggle.py:75-83 | the walk appends to the shared list exactly the paths Explore records, in that order, and leaves earlier entries alone |
| BoggleSearch.SearchNeighbours | boggle.py:81-83 | the neighbour loop appends exactly what ExploreAll records over the stored neighbour list |
| BoggleSearch.ExplorePruned | boggle.py:76-80 | a path whose word is not a stem records only itself (if its word is a full word) and is not extended |
| BoggleSearch.ExploreExtended | boggle.py:76-83 | a path whose word is a stem records itself first (if its word is a full word), then runs the neighbour loop |
| BoggleSearch.ExploreAllSkip | boggle.py:82 | a neighbour already on the path adds nothing |
| BoggleSearch.ExploreAllVisit | boggle.py:82-83 | a neighbour not on the path extends it to a simple path, and its walk's paths are appended |
| BoggleSearch.Search | boggle.py:61-107 | search returns FoundWords, and a word is returned iff it is findable (simple adjacent path, full word, every proper prefix a stem) |
| BoggleSearch.SearchEveryTile | boggle.py:95-96 | after do_search from every tile, the list holds exactly the paths recorded from some tile, all of them on the board |
| BoggleSearch.PathWords | boggle.py:104-106 | the word list has one entry per recorded path: the path's word, in the same order |
| BoggleSearch.RecordedFromStep | boggle.py:95-96 | one more do_search([position]) adds exactly the paths recorded from that tile |
| BoggleSearch.WordsOfRecordedPaths | boggle.py:104-107 | collapsing the words of the recorded paths into a set gives FoundWords; duplicates spelled by different paths merge |
| BoggleSearch.ExploreSound | boggle.py:76-83 | every recorded path spells a full word, and its word cut at every length from the start path's length on is a stem |
| BoggleSearch.ExploreAllSound | boggle.py:79-83 | the same for the paths the neighbour loop records |
| BoggleSearch.ExploreAllContains | boggle.py:81-83 | whatever is recorded from path + [x] is recorded by a neighbour loop whose list holds x |
| BoggleSearch.ExploreComplete | boggle.py:77-83 | a simple path spelling a full word, whose word is a stem at every cut from k on, is recorded by the walk from its first k tiles |
| BoggleSearch.ExploreStepBack | boggle.py:79-83 | if the walk from the first k+1 tiles records a path and the first k letters form a stem, the walk from the first k tiles records it too |
| BoggleSearch.ExploreRecordsFullWord | boggle.py:77-78 | a path spelling a full word records itself, whether or not its word is a stem |
| BoggleSearch.FoundWordsCharacterisation | boggle.py:75-107 | a word is found iff it is findable: soundness and completeness modulo pruning |
| BoggleSearch.FoundPathFindable | boggle.py:75-96 | every recorded path witnesses that its word is findable |
| BoggleSearch.FindablePathFound | boggle.py:75-96 | every findable path is recorded by the walk from its first tile, so its word is found |
| BoggleSearch.FoundWordsAreFindable | boggle.py:75-107 | the characterisation, stated for every word at once |
| BoggleSearch.FoundWordsAreFullWords | boggle.py:75-107 | search returns only full words |
| BoggleSearch.SearchFindsSpelledWords | boggle.py:77-83 | when every proper prefix of every full word is a stem, every full word spelled by a simple adjacent path is found |
| BoggleSearch.SearchFindsIndexedWords | boggle.py:77-83 | with the index of a word list, every listed word spelled by a simple adjacent path is found |
| BoggleSearch.RecordedPathsBounded | boggle.py:82-83 | no recorded path is shorter than the start path or longer than the number of tiles |
| BoggleScenarios.SingleTilePaths | boggle.py:81-83 | on a one-tile board the only simple path is that tile, spelling its letter |
| BoggleScenarios.OneTileFindsItsLetter | boggle.py:61-107 | board with a single tile A, word list ["A"]: the result is {"A"} |
| BoggleScenarios.OneTileCannotExtend | boggle.py:61-107 | board with a single tile A, word list ["AB"]: A is a stem, but the walk has nowhere to go, so the result is empty |
| BoggleScenarios.SquareFindsStep | boggle.py:81-83 | on the 2×2 board A B / C D, a full word spelled by A and any other tile is found when "A" is a stem |
| BoggleScenarios.SquareWordList | boggle.py:127-135 | the index of the word list AB, AD, AC has exactly those full words and the stem A |
| BoggleScenarios.SquareWithWordList | boggle.py:61-135 | the 2×2 board A B / C D searched with the index of AB, AD, AC finds exactly those three words |
| BoggleScenarios.SquareFindsAllThree | boggle.py:61-107 | on the 2×2 board with full words AB, AD, AC and stem A, the result is exactly those three words (the diagonal AD counts) |

## Left out

- Random letters in `make_grid` (`boggle.py:9`): `MakeGrid` takes the letter of each tile as a parameter.
- Opening and iterating the word-list file (`boggle.py:129-130`) is I/O. The index is built from a given sequence of lines.
- `main` and the `__main__` guard (`boggle.py:139-148`, `165-166`): they create a board, load the file and print, and are not modelled.
- BoggleDictionary.Upper: only maps ASCII letters. Python's `str.upper()` also changes non-ASCII letters (for example `ß` becomes `SS`). That Unicode table is not modelled.
- Grid values are modelled as single characters. `make_grid` only ever stores single letters, and `path_to_word` joins one value per tile.
- Tile iteration order: Python iterates a dict in insertion order. The model lets `AllGridNeighbours` and `SearchEveryTile` take tiles in any order. The table and the returned set do not depend on that order.
- BoggleSearch.SearchEveryTile: states which paths the list holds, not their order, because that order depends on the tile order above. Within one `do_search` call, the order is exact (`DoSearch`).
- DoSearch: has no depth limit. The recursion in `do_search` (`boggle.py:75-83`) goes one Python frame deeper per tile added, so CPython raises RecursionError past its default limit of about 1000 frames. Reaching that depth needs a stem about 1000 letters long on a board with that many tiles, so the limit is not modelled.
- The `paths` list that the nested function `do_search` shares and mutates is modelled as a sequence threaded through `DoSearch` and returned.
- `Explore`, `ExploreAll` and `FoundWords` are specification functions without `ensures`. Their properties are the lemmas listed above.
