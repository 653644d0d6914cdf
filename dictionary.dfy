/**
  The dictionary index of the Boggle solver: every line of the word list is
  trimmed and upper-cased, the result is a full word, and each of its
  non-empty proper prefixes is a stem used to prune the search.
 */
module BoggleDictionary {

  /** The two sets the search consults: complete words and proper word prefixes. */
  datatype Dictionary = Dictionary(fullWords: set<string>, stems: set<string>)

  // ---------------------------------------------------------------------
  // Normalisation of one line: str.strip() then str.upper()
  // ---------------------------------------------------------------------

  /** The characters Python's str.strip() removes (those for which str.isspace() holds). */
  predicate IsSpace(ch: char)
  {
    || '\t' <= ch <= '\r'
    || '\U{1C}' <= ch <= ' '
    || ch == '\U{85}' || ch == '\U{A0}' || ch == '\U{1680}'
    || '\U{2000}' <= ch <= '\U{200A}'
    || ch == '\U{2028}' || ch == '\U{2029}' || ch == '\U{202F}' || ch == '\U{205F}'
    || ch == '\U{3000}'
  }

  /** Neither end of `s` is a space character. */
  predicate Trimmed(s: string)
  {
    s == [] || (!IsSpace(s[0]) && !IsSpace(s[|s| - 1]))
  }

  /** `s` without its trailing space characters. */
  function StripTrailing(s: string): (r: string)
    ensures |r| <= |s| && r == s[..|r|]
    ensures forall i :: |r| <= i < |s| ==> IsSpace(s[i])
    ensures r == [] || !IsSpace(r[|r| - 1])
  {
    if s != [] && IsSpace(s[|s| - 1]) then StripTrailing(s[..|s| - 1]) else s
  }

  /** The number of space characters at the start of `s`. */
  function LeadingSpaces(s: string): (n: nat)
    ensures n <= |s|
    ensures forall i :: 0 <= i < n ==> IsSpace(s[i])
    ensures n < |s| ==> !IsSpace(s[n])
  {
    if s != [] && IsSpace(s[0]) then 1 + LeadingSpaces(s[1..]) else 0
  }

  /** str.strip(): `s` without the space characters at either end. */
  function Strip(s: string): (r: string)
    ensures |r| <= |s|
  {
    StripTrailing(s[LeadingSpaces(s)..])
  }

  /** What str.strip() keeps is a slice of `s` with no space at either end. */
  lemma StripShape(s: string)
    ensures Trimmed(Strip(s))
    ensures LeadingSpaces(s) + |Strip(s)| <= |s|
    ensures Strip(s) == s[LeadingSpaces(s)..LeadingSpaces(s) + |Strip(s)|]
  {
    var start := LeadingSpaces(s);
    var rest := s[start..];
    var r := StripTrailing(rest);
    assert Strip(s) == r;
    assert r == rest[..|r|] == s[start..start + |r|];
    if r != [] {
      assert r[0] == s[start];
    }
  }

  /** Everything str.strip() removes, before and after the slice it keeps, is space. */
  lemma StripRemovesSpace(s: string)
    ensures forall i :: 0 <= i < LeadingSpaces(s) ==> IsSpace(s[i])
    ensures forall i :: LeadingSpaces(s) + |Strip(s)| <= i < |s| ==> IsSpace(s[i])
  {
    var start := LeadingSpaces(s);
    var rest := s[start..];
    var r := StripTrailing(rest);
    assert Strip(s) == r;
    forall i | start + |r| <= i < |s| ensures IsSpace(s[i]) {
      assert s[i] == rest[i - start];
    }
  }

  /** Stripping a trimmed string changes nothing. */
  lemma StripTrimmed(s: string)
    requires Trimmed(s)
    ensures Strip(s) == s
  {
  }

  /** A lower-case ASCII letter. */
  predicate IsLower(ch: char)
  {
    'a' <= ch <= 'z'
  }

  /** str.upper() on one character, for the ASCII letters. */
  function UpperChar(ch: char): (r: char)
    ensures IsLower(ch) ==> 'A' <= r <= 'Z' && r as int == ch as int - 32
    ensures !IsLower(ch) ==> r == ch
  {
    if IsLower(ch) then (ch as int - 32) as char else ch
  }

  /** str.upper(): every character mapped by UpperChar, the length kept. */
  function Upper(s: string): (r: string)
    ensures |r| == |s|
  {
    if s == [] then "" else [UpperChar(s[0])] + Upper(s[1..])
  }

  /**
    str.upper() replaces every lower-case ASCII letter by its capital and keeps
    every other character, so no lower-case letter is left.
   */
  lemma {:induction false} UpperShape(s: string)
    ensures forall i :: 0 <= i < |s| ==> !IsLower(Upper(s)[i])
    ensures forall i :: 0 <= i < |s| && IsLower(s[i]) ==> Upper(s)[i] as int == s[i] as int - 32
    ensures forall i :: 0 <= i < |s| && !IsLower(s[i]) ==> Upper(s)[i] == s[i]
  {
    if s != [] {
      UpperShape(s[1..]);
      assert forall i :: 0 < i < |s| ==> Upper(s)[i] == Upper(s[1..])[i - 1];
    }
  }

  /** Upper-casing keeps a string trimmed: no character becomes or stops being a space. */
  lemma UpperTrimmed(s: string)
    requires Trimmed(s)
    ensures Trimmed(Upper(s))
  {
    if s != [] {
      UpperShape(s);
      var u := Upper(s);
      assert IsLower(s[0]) ==> 'A' <= u[0] <= 'Z';
      assert IsLower(s[|s| - 1]) ==> 'A' <= u[|s| - 1] <= 'Z';
    }
  }

  /** `word = word.strip().upper()`: never longer than the line it comes from. */
  function Normalise(line: string): (word: string)
    ensures |word| <= |line|
  {
    Upper(Strip(line))
  }

  /** A normalised word has no space at either end and no lower-case letter. */
  lemma NormaliseShape(line: string)
    ensures Trimmed(Normalise(line))
    ensures forall i :: 0 <= i < |Normalise(line)| ==> !IsLower(Normalise(line)[i])
  {
    StripShape(line);
    UpperTrimmed(Strip(line));
    UpperShape(Strip(line));
  }

  /** A word that is trimmed and has no lower-case letter is its own normal form. */
  lemma NormaliseFixed(s: string)
    requires Trimmed(s)
    requires forall i :: 0 <= i < |s| ==> !IsLower(s[i])
    ensures Normalise(s) == s
  {
    StripTrimmed(s);
    UpperShape(s);
    assert Upper(s) == s;
  }

  /** Normalising a normalised word changes nothing. */
  lemma NormaliseIdempotent(line: string)
    ensures Normalise(Normalise(line)) == Normalise(line)
  {
    NormaliseShape(line);
    NormaliseFixed(Normalise(line));
  }

  // ---------------------------------------------------------------------
  // The index
  // ---------------------------------------------------------------------

  /** `stem` is `word[:i]` for some 1 <= i < len(word). */
  predicate IsProperStem(stem: string, word: string)
  {
    0 < |stem| < |word| && stem == word[..|stem|]
  }

  /** The prefixes `word[:k]` for 1 <= k < bound that are shorter than `word`. */
  function StemsBelow(word: string, bound: nat): set<string>
  {
    set k | 1 <= k < bound && k < |word| :: word[..k]
  }

  /** The stems one word contributes: `{word[:i] for i in range(1, len(word))}`. */
  function ProperStems(word: string): (stems: set<string>)
    ensures forall s :: s in stems <==> IsProperStem(s, word)
    ensures word !in stems
  {
    var stems := StemsBelow(word, |word|);
    assert forall s :: IsProperStem(s, word) ==> s in stems by {
      forall s | IsProperStem(s, word) ensures s in stems {
        assert s == word[..|s|];
      }
    }
    stems
  }

  /** One more turn of the prefix loop adds `word[:i]`. */
  lemma StemsBelowStep(word: string, i: nat)
    requires 1 <= i < |word|
    ensures StemsBelow(word, i + 1) == StemsBelow(word, i) + {word[..i]}
  {
  }

  /**
    The index built from the lines read so far: each line adds its normalised
    word to the full words and that word's proper stems to the stems.
   */
  function Index(lines: seq<string>): Dictionary
  {
    if lines == [] then Dictionary({}, {})
    else
      var dictionary := Index(lines[..|lines| - 1]);
      var word := Normalise(lines[|lines| - 1]);
      Dictionary(dictionary.fullWords + {word}, dictionary.stems + ProperStems(word))
  }

  /**
    The full words are exactly the normalised lines, and the stems exactly the
    non-empty proper prefixes of the normalised lines.
   */
  lemma {:induction false} IndexMembers(lines: seq<string>)
    ensures forall w :: w in Index(lines).fullWords <==> exists line :: line in lines && Normalise(line) == w
    ensures forall s :: s in Index(lines).stems <==> exists line :: line in lines && IsProperStem(s, Normalise(line))
  {
    if lines != [] {
      var earlier := lines[..|lines| - 1];
      var last := lines[|lines| - 1];
      IndexMembers(earlier);
      assert forall line :: line in lines <==> line in earlier || line == last;
    }
  }

  /**
    get_dictionary without the file: the nested loops that fill `full_words`
    and `stems` from the lines of the word list, in order.
   */
  method GetDictionary(lines: seq<string>) returns (dictionary: Dictionary)
    ensures dictionary == Index(lines)
  {
    var fullWords: set<string>, stems: set<string> := {}, {};
    for n := 0 to |lines|
      invariant fullWords == Index(lines[..n]).fullWords
      invariant stems == Index(lines[..n]).stems
    {
      var word := Normalise(lines[n]);
      fullWords := fullWords + {word};
      ghost var before := stems;
      var i := 1;
      while i < |word|
        invariant 1 <= i && (i == 1 || i <= |word|)
        invariant stems == before + StemsBelow(word, i)
      {
        StemsBelowStep(word, i);
        stems := stems + {word[..i]};
        i := i + 1;
      }
      StemsBelowDone(word, i);
      IndexStep(lines, n);
    }
    assert lines[..|lines|] == lines;
    dictionary := Dictionary(fullWords, stems);
  }

  /** When the prefix loop stops, it has added exactly the word's proper stems. */
  lemma StemsBelowDone(word: string, i: nat)
    requires 1 <= i && (i == 1 || i <= |word|) && i >= |word|
    ensures StemsBelow(word, i) == ProperStems(word)
  {
    if |word| == 0 {
      assert StemsBelow(word, i) == {};
    }
  }

  /** Reading one more line extends the index by that line's word and stems. */
  lemma IndexStep(lines: seq<string>, n: nat)
    requires n < |lines|
    ensures Index(lines[..n + 1]).fullWords == Index(lines[..n]).fullWords + {Normalise(lines[n])}
    ensures Index(lines[..n + 1]).stems == Index(lines[..n]).stems + ProperStems(Normalise(lines[n]))
  {
    assert lines[..n + 1][..n] == lines[..n];
  }

  /** The stems are exactly the non-empty proper prefixes of the full words. */
  lemma StemsAreProperPrefixes(lines: seq<string>, s: string)
    ensures s in Index(lines).stems <==> exists w :: w in Index(lines).fullWords && IsProperStem(s, w)
  {
    var dictionary := Index(lines);
    IndexMembers(lines);
    if s in dictionary.stems {
      var line :| line in lines && IsProperStem(s, Normalise(line));
      assert Normalise(line) in dictionary.fullWords;
    }
  }

  /** Every non-empty proper prefix of every full word is a stem. */
  ghost predicate PrefixClosed(dictionary: Dictionary)
  {
    forall s, w :: w in dictionary.fullWords && IsProperStem(s, w) ==> s in dictionary.stems
  }

  /**
    Pruning is safe: a non-empty string that is not a stem is not a proper
    prefix of any full word.
   */
  lemma IndexPrefixClosed(lines: seq<string>)
    ensures PrefixClosed(Index(lines))
  {
    var dictionary := Index(lines);
    IndexMembers(lines);
    forall s, w | w in dictionary.fullWords && IsProperStem(s, w) ensures s in dictionary.stems {
      var line :| line in lines && Normalise(line) == w;
    }
  }

  /**
    A single line adds its word to the full words and only that word's proper
    stems, never the word itself; an empty line adds the empty word and no stem.
   */
  lemma IndexOneLine(line: string)
    ensures Index([line]) == Dictionary({Normalise(line)}, ProperStems(Normalise(line)))
    ensures Normalise(line) !in Index([line]).stems
    ensures Normalise(line) == "" ==> Index([line]).stems == {}
  {
    IndexStep([line], 0);
    assert [line][..1] == [line];
    assert Index([line][..0]) == Dictionary({}, {});
    if Normalise(line) == "" {
      assert ProperStems(Normalise(line)) == {};
    }
  }

  /** A word list whose lines are already normalised indexes exactly its lines as full words. */
  lemma IndexOfNormalisedLines(lines: seq<string>)
    requires forall i :: 0 <= i < |lines| ==> Normalise(lines[i]) == lines[i]
    ensures Index(lines).fullWords == set line | line in lines
  {
    IndexMembers(lines);
    forall w ensures w in Index(lines).fullWords <==> w in lines {
      if w in Index(lines).fullWords {
        var line :| line in lines && Normalise(line) == w;
        var i :| 0 <= i < |lines| && lines[i] == line;
      }
      if w in lines {
        var i :| 0 <= i < |lines| && lines[i] == w;
        assert Normalise(lines[i]) == w;
      }
    }
  }
}
