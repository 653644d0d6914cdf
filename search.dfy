/**
  The path search of the Boggle solver: a depth-first walk from every tile
  that records each path spelling a full word, stops extending a path whose
  word is not a stem, never revisits a tile, and finally collapses the
  recorded paths into the set of words they spell.
 */
module BoggleSearch {
  import opened BoggleGrid
  import opened BoggleDictionary

  /** The last position of a non-empty path (`path[-1]`). */
  function Last(path: Path): Coord
    requires |path| > 0
  {
    path[|path| - 1]
  }

  // ---------------------------------------------------------------------
  // The walk as functions: the paths do_search records, in recording order
  // ---------------------------------------------------------------------

  /**
    The paths recorded by `do_search(path)`: the path itself first when its
    word is a full word, then, unless its word is not a stem, everything
    recorded from each unvisited neighbour of its last tile, in listing order.
   */
  function Explore(grid: Grid, dictionary: Dictionary, path: Path): seq<Path>
    requires SimplePath(grid, path)
    decreases |grid.Keys| - |path|, 1
  {
    PathLengthBound(grid, path);
    var word := PathToWord(grid, path);
    var here := if word in dictionary.fullWords then [path] else [];
    if word !in dictionary.stems then here
    else here + ExploreAll(grid, dictionary, path, InGridNeighbours(grid, Last(path)))
  }

  /**
    The paths recorded by the neighbour loop of `do_search(path)` over the
    candidates `next`: each candidate not already on the path is explored in
    turn.
   */
  function ExploreAll(grid: Grid, dictionary: Dictionary, path: Path, next: seq<Coord>): seq<Path>
    requires SimplePath(grid, path)
    requires forall i :: 0 <= i < |next| ==> next[i] in InGridNeighbours(grid, Last(path))
    decreases |grid.Keys| - |path|, 0, |next|
  {
    if next == [] then []
    else
      var earlier := ExploreAll(grid, dictionary, path, next[..|next| - 1]);
      var nextPos := next[|next| - 1];
      if nextPos in path then earlier
      else
        assert nextPos in InGridNeighbours(grid, Last(path));
        ExtendSimplePath(grid, path, nextPos);
        PathLengthBound(grid, path + [nextPos]);
        earlier + Explore(grid, dictionary, path + [nextPos])
  }

  /** Every path recorded from `path` is a simple path that extends `path`. */
  lemma {:induction false} ExploreSimplePaths(grid: Grid, dictionary: Dictionary, path: Path, q: Path)
    requires SimplePath(grid, path)
    requires q in Explore(grid, dictionary, path)
    ensures SimplePath(grid, q) && path <= q
    decreases |grid.Keys| - |path|, 1
  {
    PathLengthBound(grid, path);
    if q != path {
      var next := InGridNeighbours(grid, Last(path));
      assert q in ExploreAll(grid, dictionary, path, next);
      ExploreAllSimplePaths(grid, dictionary, path, next, q);
    }
  }

  /** Every path recorded by the neighbour loop is a simple path strictly longer than `path`. */
  lemma {:induction false} ExploreAllSimplePaths(grid: Grid, dictionary: Dictionary, path: Path, next: seq<Coord>, q: Path)
    requires SimplePath(grid, path)
    requires forall i :: 0 <= i < |next| ==> next[i] in InGridNeighbours(grid, Last(path))
    requires q in ExploreAll(grid, dictionary, path, next)
    ensures SimplePath(grid, q) && path < q
    decreases |grid.Keys| - |path|, 0, |next|
  {
    var earlier := next[..|next| - 1];
    var nextPos := next[|next| - 1];
    if q in ExploreAll(grid, dictionary, path, earlier) {
      ExploreAllSimplePaths(grid, dictionary, path, earlier, q);
    } else {
      ExtendSimplePath(grid, path, nextPos);
      PathLengthBound(grid, path);
      PathLengthBound(grid, path + [nextPos]);
      ExploreSimplePaths(grid, dictionary, path + [nextPos], q);
      assert q[..|path|] == (path + [nextPos])[..|path|] == path;
    }
  }

  /** The paths recorded by `do_search([position])`, the walk from one tile. */
  function ExploreFrom(grid: Grid, dictionary: Dictionary, position: Coord): (recorded: seq<Path>)
    requires position in grid
    ensures forall q :: q in recorded ==> SimplePath(grid, q) && q[0] == position
  {
    assert SimplePath(grid, [position]);
    var recorded := Explore(grid, dictionary, [position]);
    forall q | q in recorded ensures SimplePath(grid, q) && q[0] == position {
      ExploreSimplePaths(grid, dictionary, [position], q);
    }
    recorded
  }

  /**
    The words `search` returns: the words spelled by the paths recorded from
    every tile.  The set does not depend on the order in which tiles are tried.
   */
  function FoundWords(grid: Grid, dictionary: Dictionary): set<string>
  {
    set r, q | r in grid && q in ExploreFrom(grid, dictionary, r) :: PathToWord(grid, q)
  }

  // ---------------------------------------------------------------------
  // The walk as the source runs it
  // ---------------------------------------------------------------------

  /**
    do_search: record `path` when it spells a full word, stop when its word is
    not a stem, otherwise recurse into every neighbour not already on the path.
    The list of recorded paths shared by all calls is threaded through as
    `paths`; each call appends exactly what Explore says, in that order.
   */
  method DoSearch(grid: Grid, neighbours: NeighbourTable, dictionary: Dictionary, path: Path, paths: seq<Path>)
    returns (result: seq<Path>)
    requires IsNeighbourTable(grid, neighbours)
    requires SimplePath(grid, path)
    ensures result == paths + Explore(grid, dictionary, path)
    decreases |grid.Keys| - |path|, 1
  {
    PathLengthBound(grid, path);
    var word := PathToWord(grid, path);
    result := paths;
    if word in dictionary.fullWords {
      result := result + [path];
    }
    ghost var here := result[|paths|..];
    assert result == paths + here;
    if word !in dictionary.stems {
      ExplorePruned(grid, dictionary, path, here);
      return;
    }
    result := SearchNeighbours(grid, neighbours, dictionary, path, result);
    ExploreExtended(grid, dictionary, path, here);
    AppendAssoc(paths, here, ExploreAll(grid, dictionary, path, InGridNeighbours(grid, Last(path))));
  }

  /**
    The neighbour loop of do_search: for each tile listed for the last tile of
    `path`, in listing order, search on from it when it is not on the path yet.
   */
  method SearchNeighbours(grid: Grid, neighbours: NeighbourTable, dictionary: Dictionary, path: Path, paths: seq<Path>)
    returns (result: seq<Path>)
    requires IsNeighbourTable(grid, neighbours)
    requires SimplePath(grid, path)
    ensures result == paths + ExploreAll(grid, dictionary, path, InGridNeighbours(grid, Last(path)))
    decreases |grid.Keys| - |path|, 0
  {
    PathLengthBound(grid, path);
    var candidates := neighbours[path[|path| - 1]];
    assert candidates == InGridNeighbours(grid, Last(path));
    assert candidates[..0] == [];
    result := paths;
    for i := 0 to |candidates|
      invariant result == paths + ExploreAll(grid, dictionary, path, candidates[..i])
    {
      var nextPos := candidates[i];
      if nextPos in path {
        ExploreAllSkip(grid, dictionary, path, candidates, i);
      } else {
        ExploreAllVisit(grid, dictionary, path, candidates, i);
        PathLengthBound(grid, path + [nextPos]);
        AppendAssoc(paths, ExploreAll(grid, dictionary, path, candidates[..i]), Explore(grid, dictionary, path + [nextPos]));
        result := DoSearch(grid, neighbours, dictionary, path + [nextPos], result);
      }
    }
    assert candidates[..|candidates|] == candidates;
  }

  /** A path whose word is not a stem records itself when it is a full word, and nothing more. */
  lemma ExplorePruned(grid: Grid, dictionary: Dictionary, path: Path, here: seq<Path>)
    requires SimplePath(grid, path)
    requires here == if PathToWord(grid, path) in dictionary.fullWords then [path] else []
    requires PathToWord(grid, path) !in dictionary.stems
    ensures Explore(grid, dictionary, path) == here
  {
  }

  /** A path whose word is a stem records itself when it is a full word, then runs the neighbour loop. */
  lemma ExploreExtended(grid: Grid, dictionary: Dictionary, path: Path, here: seq<Path>)
    requires SimplePath(grid, path)
    requires here == if PathToWord(grid, path) in dictionary.fullWords then [path] else []
    requires PathToWord(grid, path) in dictionary.stems
    ensures Explore(grid, dictionary, path) == here + ExploreAll(grid, dictionary, path, InGridNeighbours(grid, Last(path)))
  {
  }

  /** A turn of the neighbour loop over a candidate already on the path records nothing. */
  lemma ExploreAllSkip(grid: Grid, dictionary: Dictionary, path: Path, candidates: seq<Coord>, i: nat)
    requires SimplePath(grid, path)
    requires candidates == InGridNeighbours(grid, Last(path))
    requires i < |candidates| && candidates[i] in path
    ensures ExploreAll(grid, dictionary, path, candidates[..i + 1]) == ExploreAll(grid, dictionary, path, candidates[..i])
  {
    var upTo := candidates[..i + 1];
    assert upTo[..|upTo| - 1] == candidates[..i];
    assert upTo[|upTo| - 1] == candidates[i];
  }

  /** A turn of the neighbour loop over a candidate not yet on the path records the walk from it. */
  lemma ExploreAllVisit(grid: Grid, dictionary: Dictionary, path: Path, candidates: seq<Coord>, i: nat)
    requires SimplePath(grid, path)
    requires candidates == InGridNeighbours(grid, Last(path))
    requires i < |candidates| && candidates[i] !in path
    ensures SimplePath(grid, path + [candidates[i]])
    ensures ExploreAll(grid, dictionary, path, candidates[..i + 1])
            == ExploreAll(grid, dictionary, path, candidates[..i]) + Explore(grid, dictionary, path + [candidates[i]])
  {
    var upTo := candidates[..i + 1];
    assert upTo[..|upTo| - 1] == candidates[..i];
    assert upTo[|upTo| - 1] == candidates[i];
    ExtendSimplePath(grid, path, candidates[i]);
  }

  /** Concatenation is associative. */
  lemma AppendAssoc<T>(a: seq<T>, b: seq<T>, c: seq<T>)
    ensures (a + b) + c == a + (b + c)
  {
  }

  /**
    search: build the adjacency table, run do_search from every tile in turn
    (in whatever order the board yields its tiles), then turn the recorded
    paths into their words and collapse them into a set.
   */
  method Search(grid: Grid, dictionary: Dictionary) returns (words: set<string>)
    ensures words == FoundWords(grid, dictionary)
    ensures forall w :: w in words <==> exists p :: Findable(grid, dictionary, p, w)
  {
    var neighbours := AllGridNeighbours(grid);
    var paths := SearchEveryTile(grid, neighbours, dictionary);
    var wordList := PathWords(grid, paths);
    words := set w | w in wordList;
    WordsOfRecordedPaths(grid, dictionary, paths, wordList);
    FoundWordsAreFindable(grid, dictionary);
  }

  /**
    The loop of search that calls do_search([position]) for every tile in turn,
    all calls appending to one list: afterwards the list holds exactly the
    paths recorded from some tile.
   */
  method SearchEveryTile(grid: Grid, neighbours: NeighbourTable, dictionary: Dictionary) returns (paths: seq<Path>)
    requires IsNeighbourTable(grid, neighbours)
    ensures forall j :: 0 <= j < |paths| ==> OnGrid(grid, paths[j])
    ensures forall q :: q in paths <==> exists r :: r in grid && q in ExploreFrom(grid, dictionary, r)
  {
    paths := [];
    var remaining := grid.Keys;
    ghost var started: set<Coord> := {};
    while remaining != {}
      invariant remaining !! started && remaining + started == grid.Keys
      invariant forall j :: 0 <= j < |paths| ==> OnGrid(grid, paths[j])
      invariant forall q :: q in paths <==> exists r :: r in started && r in grid && q in ExploreFrom(grid, dictionary, r)
      decreases remaining
    {
      var position :| position in remaining;
      assert SimplePath(grid, [position]);
      ghost var before := paths;
      paths := DoSearch(grid, neighbours, dictionary, [position], paths);
      assert paths == before + ExploreFrom(grid, dictionary, position);
      RecordedFromStep(grid, dictionary, before, started, position, paths);
      remaining := remaining - {position};
      started := started + {position};
    }
    assert started == grid.Keys;
  }

  /** `[path_to_word(grid, p) for p in paths]`: the word of each recorded path, in order. */
  method PathWords(grid: Grid, paths: seq<Path>) returns (wordList: seq<string>)
    requires forall j :: 0 <= j < |paths| ==> OnGrid(grid, paths[j])
    ensures |wordList| == |paths|
    ensures forall j :: 0 <= j < |paths| ==> wordList[j] == PathToWord(grid, paths[j])
  {
    wordList := [];
    for i := 0 to |paths|
      invariant |wordList| == i
      invariant forall j :: 0 <= j < i ==> wordList[j] == PathToWord(grid, paths[j])
    {
      wordList := wordList + [PathToWord(grid, paths[i])];
    }
  }

  /** Running do_search from one more tile adds exactly the paths recorded from it. */
  lemma RecordedFromStep(grid: Grid, dictionary: Dictionary, paths: seq<Path>, started: set<Coord>,
                         position: Coord, next: seq<Path>)
    requires position in grid
    requires forall j :: 0 <= j < |paths| ==> OnGrid(grid, paths[j])
    requires forall q :: q in paths <==> exists r :: r in started && r in grid && q in ExploreFrom(grid, dictionary, r)
    requires next == paths + ExploreFrom(grid, dictionary, position)
    ensures forall j :: 0 <= j < |next| ==> OnGrid(grid, next[j])
    ensures forall q :: q in next <==> exists r :: r in started + {position} && r in grid && q in ExploreFrom(grid, dictionary, r)
  {
    var recorded := ExploreFrom(grid, dictionary, position);
    forall j | 0 <= j < |next| ensures OnGrid(grid, next[j]) {
      if j >= |paths| {
        assert next[j] == recorded[j - |paths|];
        assert next[j] in recorded;
      }
    }
    forall q ensures q in next <==> exists r :: r in started + {position} && r in grid && q in ExploreFrom(grid, dictionary, r) {
      assert q in next <==> q in paths || q in recorded;
    }
  }

  /** Collapsing the words of all recorded paths into a set gives FoundWords. */
  lemma WordsOfRecordedPaths(grid: Grid, dictionary: Dictionary, paths: seq<Path>, wordList: seq<string>)
    requires forall j :: 0 <= j < |paths| ==> OnGrid(grid, paths[j])
    requires forall q :: q in paths <==> exists r :: r in grid && q in ExploreFrom(grid, dictionary, r)
    requires |wordList| == |paths|
    requires forall j :: 0 <= j < |paths| ==> wordList[j] == PathToWord(grid, paths[j])
    ensures (set w | w in wordList) == FoundWords(grid, dictionary)
  {
    forall w | w in wordList ensures w in FoundWords(grid, dictionary) {
      var j :| 0 <= j < |wordList| && wordList[j] == w;
      assert paths[j] in paths;
      var r :| r in grid && paths[j] in ExploreFrom(grid, dictionary, r);
    }
    forall w | w in FoundWords(grid, dictionary) ensures w in wordList {
      var r, q :| r in grid && q in ExploreFrom(grid, dictionary, r) && w == PathToWord(grid, q);
      assert q in paths;
      var j :| 0 <= j < |paths| && paths[j] == q;
      assert wordList[j] == w;
    }
  }

  // ---------------------------------------------------------------------
  // Soundness and completeness
  // ---------------------------------------------------------------------

  /**
    `path` is a simple adjacent path spelling the full word `word`, and every
    non-empty proper prefix of `word` is a stem, so the walk never prunes it.
   */
  predicate Findable(grid: Grid, dictionary: Dictionary, path: Path, word: string)
  {
    && SimplePath(grid, path)
    && PathToWord(grid, path) == word
    && word in dictionary.fullWords
    && forall k :: 1 <= k < |path| ==> word[..k] in dictionary.stems
  }

  /**
    Every path recorded from `root` spells a full word, and its word cut at
    each length from |root| up to (not including) its own length is a stem.
   */
  lemma {:induction false} ExploreSound(grid: Grid, dictionary: Dictionary, root: Path, q: Path)
    requires SimplePath(grid, root)
    requires q in Explore(grid, dictionary, root)
    requires OnGrid(grid, q)
    ensures PathToWord(grid, q) in dictionary.fullWords
    ensures forall k :: |root| <= k < |q| ==> PathToWord(grid, q)[..k] in dictionary.stems
    decreases |grid.Keys| - |root|, 1
  {
    PathLengthBound(grid, root);
    var word := PathToWord(grid, root);
    var here := if word in dictionary.fullWords then [root] else [];
    if q in here {
      assert q == root;
    } else {
      var next := InGridNeighbours(grid, Last(root));
      assert word in dictionary.stems;
      assert q in ExploreAll(grid, dictionary, root, next);
      ExploreAllSound(grid, dictionary, root, next, q);
      ExploreAllSimplePaths(grid, dictionary, root, next, q);
      PathToWordPrefix(grid, q, |root|);
      assert q[..|root|] == root;
    }
  }

  /** The same, for the paths recorded by the neighbour loop (all longer than `root`). */
  lemma {:induction false} ExploreAllSound(grid: Grid, dictionary: Dictionary, root: Path, next: seq<Coord>, q: Path)
    requires SimplePath(grid, root)
    requires forall i :: 0 <= i < |next| ==> next[i] in InGridNeighbours(grid, Last(root))
    requires q in ExploreAll(grid, dictionary, root, next)
    requires OnGrid(grid, q)
    ensures PathToWord(grid, q) in dictionary.fullWords
    ensures forall k :: |root| < k < |q| ==> PathToWord(grid, q)[..k] in dictionary.stems
    decreases |grid.Keys| - |root|, 0, |next|
  {
    var earlier := next[..|next| - 1];
    var nextPos := next[|next| - 1];
    if q in ExploreAll(grid, dictionary, root, earlier) {
      ExploreAllSound(grid, dictionary, root, earlier, q);
    } else {
      ExtendSimplePath(grid, root, nextPos);
      PathLengthBound(grid, root);
      PathLengthBound(grid, root + [nextPos]);
      ExploreSound(grid, dictionary, root + [nextPos], q);
    }
  }

  /** A path recorded from `root + [x]` is recorded by a neighbour loop over candidates holding x. */
  lemma {:induction false} ExploreAllContains(grid: Grid, dictionary: Dictionary, root: Path, next: seq<Coord>, x: Coord, q: Path)
    requires SimplePath(grid, root)
    requires forall i :: 0 <= i < |next| ==> next[i] in InGridNeighbours(grid, Last(root))
    requires x in next && x !in root
    requires SimplePath(grid, root + [x])
    requires q in Explore(grid, dictionary, root + [x])
    ensures q in ExploreAll(grid, dictionary, root, next)
    decreases |next|
  {
    var earlier := next[..|next| - 1];
    if next[|next| - 1] != x {
      assert x in earlier;
      ExploreAllContains(grid, dictionary, root, earlier, x, q);
    }
  }

  /**
    Completeness of the walk from a prefix: a simple path spelling a full word,
    whose word cut at each length from k up is a stem, is recorded when the
    walk reaches its first k tiles.
   */
  lemma {:induction false} ExploreComplete(grid: Grid, dictionary: Dictionary, p: Path, k: nat)
    requires SimplePath(grid, p)
    requires 1 <= k <= |p|
    requires PathToWord(grid, p) in dictionary.fullWords
    requires forall j :: k <= j < |p| ==> PathToWord(grid, p)[..j] in dictionary.stems
    ensures SimplePath(grid, p[..k])
    ensures p in Explore(grid, dictionary, p[..k])
    decreases |p| - k
  {
    SimplePathPrefix(grid, p, k);
    if k == |p| {
      assert p[..k] == p;
      ExploreRecordsFullWord(grid, dictionary, p);
    } else {
      ExploreComplete(grid, dictionary, p, k + 1);
      PathToWordPrefix(grid, p, k);
      ExploreStepBack(grid, dictionary, p, k);
    }
  }

  /**
    One step of completeness: when the walk from the first k + 1 tiles of a
    simple path records it and the word of its first k tiles is a stem, the
    walk from the first k tiles records it too.
   */
  lemma ExploreStepBack(grid: Grid, dictionary: Dictionary, p: Path, k: nat)
    requires SimplePath(grid, p)
    requires 1 <= k < |p|
    requires SimplePath(grid, p[..k]) && SimplePath(grid, p[..k + 1])
    requires PathToWord(grid, p[..k]) in dictionary.stems
    requires p in Explore(grid, dictionary, p[..k + 1])
    ensures p in Explore(grid, dictionary, p[..k])
  {
    var root := p[..k];
    var x := p[k];
    assert x in InGridNeighbours(grid, Last(root));
    assert x !in root by {
      forall i | 0 <= i < k ensures root[i] != x {
        assert p[i] != p[k];
      }
    }
    assert root + [x] == p[..k + 1];
    var next := InGridNeighbours(grid, Last(root));
    ExploreAllContains(grid, dictionary, root, next, x, p);
    var here := if PathToWord(grid, root) in dictionary.fullWords then [root] else [];
    ExploreExtended(grid, dictionary, root, here);
    assert p in here + ExploreAll(grid, dictionary, root, next);
  }

  /** A simple path spelling a full word records itself first. */
  lemma ExploreRecordsFullWord(grid: Grid, dictionary: Dictionary, path: Path)
    requires SimplePath(grid, path)
    requires PathToWord(grid, path) in dictionary.fullWords
    ensures path in Explore(grid, dictionary, path)
  {
    assert Explore(grid, dictionary, path)[0] == path;
  }

  /**
    The words search returns are exactly the full words spelled by a simple
    adjacent path whose every non-empty proper prefix is a stem: soundness and
    completeness modulo pruning.
   */
  lemma FoundWordsCharacterisation(grid: Grid, dictionary: Dictionary, w: string)
    ensures w in FoundWords(grid, dictionary) <==> exists p :: Findable(grid, dictionary, p, w)
  {
    if w in FoundWords(grid, dictionary) {
      var r, q :| r in grid && q in ExploreFrom(grid, dictionary, r) && w == PathToWord(grid, q);
      FoundPathFindable(grid, dictionary, r, q);
    }
    if p :| Findable(grid, dictionary, p, w) {
      FindablePathFound(grid, dictionary, p, w);
    }
  }

  /** Soundness for one recorded path: it is a findable path for its word. */
  lemma FoundPathFindable(grid: Grid, dictionary: Dictionary, r: Coord, q: Path)
    requires r in grid && q in ExploreFrom(grid, dictionary, r)
    ensures Findable(grid, dictionary, q, PathToWord(grid, q))
  {
    assert SimplePath(grid, [r]);
    ExploreSound(grid, dictionary, [r], q);
  }

  /** Completeness for one findable path: the walk from its first tile records it. */
  lemma FindablePathFound(grid: Grid, dictionary: Dictionary, p: Path, w: string)
    requires Findable(grid, dictionary, p, w)
    ensures p[0] in grid && p in ExploreFrom(grid, dictionary, p[0])
    ensures w in FoundWords(grid, dictionary)
  {
    ExploreComplete(grid, dictionary, p, 1);
    assert p[..1] == [p[0]];
  }

  /** FoundWordsCharacterisation for every word at once. */
  lemma FoundWordsAreFindable(grid: Grid, dictionary: Dictionary)
    ensures forall w :: w in FoundWords(grid, dictionary) <==> exists p :: Findable(grid, dictionary, p, w)
  {
    forall w ensures w in FoundWords(grid, dictionary) <==> exists p :: Findable(grid, dictionary, p, w) {
      FoundWordsCharacterisation(grid, dictionary, w);
    }
  }

  /** Soundness as a set: search returns only full words. */
  lemma FoundWordsAreFullWords(grid: Grid, dictionary: Dictionary)
    ensures FoundWords(grid, dictionary) <= dictionary.fullWords
  {
    forall w | w in FoundWords(grid, dictionary) ensures w in dictionary.fullWords {
      var r, q :| r in grid && q in ExploreFrom(grid, dictionary, r) && w == PathToWord(grid, q);
      ExploreSound(grid, dictionary, [r], q);
    }
  }

  /**
    With a dictionary whose stems include every non-empty proper prefix of
    every full word, every full word spelled by a simple adjacent path is found.
   */
  lemma SearchFindsSpelledWords(grid: Grid, dictionary: Dictionary, p: Path)
    requires PrefixClosed(dictionary)
    requires SimplePath(grid, p)
    requires PathToWord(grid, p) in dictionary.fullWords
    ensures PathToWord(grid, p) in FoundWords(grid, dictionary)
  {
    var word := PathToWord(grid, p);
    assert forall k :: 1 <= k < |p| ==> IsProperStem(word[..k], word);
    assert Findable(grid, dictionary, p, word);
    FoundWordsCharacterisation(grid, dictionary, word);
  }

  /**
    With an index built from a word list, every word of the list spelled by a
    simple adjacent path is found.
   */
  lemma SearchFindsIndexedWords(grid: Grid, lines: seq<string>, p: Path)
    requires SimplePath(grid, p)
    requires PathToWord(grid, p) in Index(lines).fullWords
    ensures PathToWord(grid, p) in FoundWords(grid, Index(lines))
  {
    IndexPrefixClosed(lines);
    SearchFindsSpelledWords(grid, Index(lines), p);
  }

  /** Termination: no recorded path is longer than the board has tiles. */
  lemma RecordedPathsBounded(grid: Grid, dictionary: Dictionary, root: Path, q: Path)
    requires SimplePath(grid, root)
    requires q in Explore(grid, dictionary, root)
    ensures |root| <= |q| <= |grid.Keys|
  {
    ExploreSimplePaths(grid, dictionary, root, q);
    PathLengthBound(grid, q);
  }
}
