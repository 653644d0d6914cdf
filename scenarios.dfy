/**
  Small boards worked through end to end: the index is built from a word
  list, the search is characterised by FoundWords, and the found words are
  computed from the soundness and completeness lemmas.
 */
module BoggleScenarios {
  import opened BoggleGrid
  import opened BoggleDictionary
  import opened BoggleSearch

  /** A board of one tile showing `letter`. */
  function SingleTile(letter: char): (grid: Grid)
    ensures grid.Keys == {(0, 0)} && grid[(0, 0)] == letter
  {
    map[(0, 0) := letter]
  }

  /** On a one-tile board the only simple path is that tile, spelling its letter. */
  lemma SingleTilePaths(letter: char, p: Path)
    requires SimplePath(SingleTile(letter), p)
    ensures p == [(0, 0)] && PathToWord(SingleTile(letter), p) == [letter]
  {
    var grid := SingleTile(letter);
    PathLengthBound(grid, p);
    assert |grid.Keys| == 1;
    assert p == [p[0]];
    var word := PathToWord(grid, p);
    assert word == [word[0]];
  }

  /** A one-tile board showing A, with the word list ["A"], finds exactly "A". */
  lemma OneTileFindsItsLetter()
    ensures FoundWords(SingleTile('A'), Index(["A"])) == {"A"}
  {
    var grid := SingleTile('A');
    NormaliseFixed("A");
    IndexOneLine("A");
    var dictionary := Index(["A"]);
    assert dictionary.fullWords == {"A"};
    forall w ensures w in FoundWords(grid, dictionary) <==> w == "A" {
      FoundWordsCharacterisation(grid, dictionary, w);
      if p :| Findable(grid, dictionary, p, w) {
        SingleTilePaths('A', p);
      }
      if w == "A" {
        assert OnGrid(grid, [(0, 0)]);
        assert PathToWord(grid, [(0, 0)]) == "A";
        assert Findable(grid, dictionary, [(0, 0)], w);
      }
    }
  }

  /**
    A one-tile board showing A, with the word list ["AB"], finds nothing: A is
    a stem, but the walk has no tile to extend to.
   */
  lemma OneTileCannotExtend()
    ensures FoundWords(SingleTile('A'), Index(["AB"])) == {}
  {
    var grid := SingleTile('A');
    NormaliseFixed("AB");
    IndexOneLine("AB");
    var dictionary := Index(["AB"]);
    assert dictionary.fullWords == {"AB"};
    forall w | w in FoundWords(grid, dictionary) ensures false {
      FoundWordsCharacterisation(grid, dictionary, w);
      var p :| Findable(grid, dictionary, p, w);
      SingleTilePaths('A', p);
    }
  }

  /** The 2 by 2 board A B / C D, whose four tiles all touch one another. */
  function SquareABCD(): (grid: Grid)
    ensures grid.Keys == {(0, 0), (0, 1), (1, 0), (1, 1)}
  {
    map[(0, 0) := 'A', (0, 1) := 'B', (1, 0) := 'C', (1, 1) := 'D']
  }

  /** A word spelled by a two-tile step from A is found on the 2 by 2 board. */
  lemma SquareFindsStep(dictionary: Dictionary, to: Coord)
    requires to in {(0, 1), (1, 0), (1, 1)}
    requires "A" in dictionary.stems
    requires ['A', SquareABCD()[to]] in dictionary.fullWords
    ensures ['A', SquareABCD()[to]] in FoundWords(SquareABCD(), dictionary)
  {
    var grid := SquareABCD();
    var p := [(0, 0), to];
    var w := ['A', grid[to]];
    assert SimplePath(grid, p);
    assert PathToWord(grid, p) == w;
    assert w[..1] == "A";
    assert Findable(grid, dictionary, p, w);
    FoundWordsCharacterisation(grid, dictionary, w);
  }

  /**
    The index of the word list "AB", "AD", "AC" has exactly those full words,
    and "A" among its stems.
   */
  lemma SquareWordList(lines: seq<string>)
    requires lines == ["AB", "AD", "AC"]
    ensures Index(lines).fullWords == {"AB", "AD", "AC"}
    ensures "A" in Index(lines).stems
  {
    forall i | 0 <= i < |lines| ensures Normalise(lines[i]) == lines[i] {
      NormaliseFixed(lines[i]);
    }
    IndexOfNormalisedLines(lines);
    assert (set line | line in lines) == {"AB", "AD", "AC"};
    StemsAreProperPrefixes(lines, "A");
    assert IsProperStem("A", "AB");
  }

  /**
    On the 2 by 2 board A B / C D with the full words "AB", "AD" and "AC" and
    the stem "A" (which the index of that word list holds, by SquareWordList),
    every word is found, diagonal steps counting as adjacent, and nothing else is.
   */
  lemma SquareFindsAllThree(grid: Grid, dictionary: Dictionary)
    requires grid == SquareABCD()
    requires dictionary.fullWords == {"AB", "AD", "AC"} && "A" in dictionary.stems
    ensures FoundWords(grid, dictionary) == {"AB", "AD", "AC"}
  {
    FoundWordsAreFullWords(grid, dictionary);
    SquareFindsStep(dictionary, (0, 1));
    SquareFindsStep(dictionary, (1, 1));
    SquareFindsStep(dictionary, (1, 0));
  }

  /** The 2 by 2 board A B / C D searched with the index of the word list "AB", "AD", "AC". */
  lemma SquareWithWordList(grid: Grid, lines: seq<string>)
    requires grid == SquareABCD()
    requires lines == ["AB", "AD", "AC"]
    ensures FoundWords(grid, Index(lines)) == {"AB", "AD", "AC"}
  {
    SquareWordList(lines);
    SquareFindsAllThree(grid, Index(lines));
  }
}
