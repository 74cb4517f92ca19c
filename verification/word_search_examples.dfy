/**
 Worked examples of the word-search count on concrete lines, including the
 line the program's entry point prints and lines where subsequence spellings
 are counted beyond the contiguous occurrences of the word. Each count is
 built character by character from the subsequence-spelling recursion, then
 carried over to the prefix-count pass by `MatchesInDirectionEmbeddings`.
 */
module WordSearchExamples {
  import opened WordSearch

  lemma XmasDistinct(word: string)
    requires word == "XMAS"
    ensures |word| == 4 && DistinctLetters(word)
  {
  }

  // EntryPointLine: "MXMXAXMASX", read forwards and backwards

  lemma EntryPointLineForward0(s: string, w: string)
    requires s == "MXMXAXMASX" && w == "XMAS"
    ensures EmbeddingsUpTo(s, 0, w, 1) == 0 && EmbeddingsUpTo(s, 0, w, 2) == 0 && EmbeddingsUpTo(s, 0, w, 3) == 0 && EmbeddingsUpTo(s, 0, w, 4) == 0
  {
  }

  lemma EntryPointLineForward1(s: string, w: string)
    requires s == "MXMXAXMASX" && w == "XMAS"
    ensures EmbeddingsUpTo(s, 1, w, 1) == 0 && EmbeddingsUpTo(s, 1, w, 2) == 0 && EmbeddingsUpTo(s, 1, w, 3) == 0 && EmbeddingsUpTo(s, 1, w, 4) == 0
  {
    EntryPointLineForward0(s, w);
  }

  lemma EntryPointLineForward2(s: string, w: string)
    requires s == "MXMXAXMASX" && w == "XMAS"
    ensures EmbeddingsUpTo(s, 2, w, 1) == 1 && EmbeddingsUpTo(s, 2, w, 2) == 0 && EmbeddingsUpTo(s, 2, w, 3) == 0 && EmbeddingsUpTo(s, 2, w, 4) == 0
  {
    EntryPointLineForward1(s, w);
  }

  lemma EntryPointLineForward3(s: string, w: string)
    requires s == "MXMXAXMASX" && w == "XMAS"
    ensures EmbeddingsUpTo(s, 3, w, 1) == 1 && EmbeddingsUpTo(s, 3, w, 2) == 1 && EmbeddingsUpTo(s, 3, w, 3) == 0 && EmbeddingsUpTo(s, 3, w, 4) == 0
  {
    EntryPointLineForward2(s, w);
  }

  lemma EntryPointLineForward4(s: string, w: string)
    requires s == "MXMXAXMASX" && w == "XMAS"
    ensures EmbeddingsUpTo(s, 4, w, 1) == 2 && EmbeddingsUpTo(s, 4, w, 2) == 1 && EmbeddingsUpTo(s, 4, w, 3) == 0 && EmbeddingsUpTo(s, 4, w, 4) == 0
  {
    EntryPointLineForward3(s, w);
  }

  lemma EntryPointLineForward5(s: string, w: string)
    requires s == "MXMXAXMASX" && w == "XMAS"
    ensures EmbeddingsUpTo(s, 5, w, 1) == 2 && EmbeddingsUpTo(s, 5, w, 2) == 1 && EmbeddingsUpTo(s, 5, w, 3) == 1 && EmbeddingsUpTo(s, 5, w, 4) == 0
  {
    EntryPointLineForward4(s, w);
  }

  lemma EntryPointLineForward6(s: string, w: string)
    requires s == "MXMXAXMASX" && w == "XMAS"
    ensures EmbeddingsUpTo(s, 6, w, 1) == 3 && EmbeddingsUpTo(s, 6, w, 2) == 1 && EmbeddingsUpTo(s, 6, w, 3) == 1 && EmbeddingsUpTo(s, 6, w, 4) == 0
  {
    EntryPointLineForward5(s, w);
  }

  lemma EntryPointLineForward7(s: string, w: string)
    requires s == "MXMXAXMASX" && w == "XMAS"
    ensures EmbeddingsUpTo(s, 7, w, 1) == 3 && EmbeddingsUpTo(s, 7, w, 2) == 4 && EmbeddingsUpTo(s, 7, w, 3) == 1 && EmbeddingsUpTo(s, 7, w, 4) == 0
  {
    EntryPointLineForward6(s, w);
  }

  lemma EntryPointLineForward8(s: string, w: string)
    requires s == "MXMXAXMASX" && w == "XMAS"
    ensures EmbeddingsUpTo(s, 8, w, 1) == 3 && EmbeddingsUpTo(s, 8, w, 2) == 4 && EmbeddingsUpTo(s, 8, w, 3) == 5 && EmbeddingsUpTo(s, 8, w, 4) == 0
  {
    EntryPointLineForward7(s, w);
  }

  lemma EntryPointLineForward9(s: string, w: string)
    requires s == "MXMXAXMASX" && w == "XMAS"
    ensures EmbeddingsUpTo(s, 9, w, 1) == 3 && EmbeddingsUpTo(s, 9, w, 2) == 4 && EmbeddingsUpTo(s, 9, w, 3) == 5 && EmbeddingsUpTo(s, 9, w, 4) == 5
  {
    EntryPointLineForward8(s, w);
  }

  lemma EntryPointLineForward10(s: string, w: string)
    requires s == "MXMXAXMASX" && w == "XMAS"
    ensures EmbeddingsUpTo(s, 10, w, 1) == 4 && EmbeddingsUpTo(s, 10, w, 2) == 4 && EmbeddingsUpTo(s, 10, w, 3) == 5 && EmbeddingsUpTo(s, 10, w, 4) == 5
  {
    EntryPointLineForward9(s, w);
  }

  lemma EntryPointLineBackward0(s: string, w: string)
    requires s == "XSAMXAXMXM" && w == "XMAS"
    ensures EmbeddingsUpTo(s, 0, w, 1) == 0 && EmbeddingsUpTo(s, 0, w, 2) == 0 && EmbeddingsUpTo(s, 0, w, 3) == 0 && EmbeddingsUpTo(s, 0, w, 4) == 0
  {
  }

  lemma EntryPointLineBackward1(s: string, w: string)
    requires s == "XSAMXAXMXM" && w == "XMAS"
    ensures EmbeddingsUpTo(s, 1, w, 1) == 1 && EmbeddingsUpTo(s, 1, w, 2) == 0 && EmbeddingsUpTo(s, 1, w, 3) == 0 && EmbeddingsUpTo(s, 1, w, 4) == 0
  {
    EntryPointLineBackward0(s, w);
  }

  lemma EntryPointLineBackward2(s: string, w: string)
    requires s == "XSAMXAXMXM" && w == "XMAS"
    ensures EmbeddingsUpTo(s, 2, w, 1) == 1 && EmbeddingsUpTo(s, 2, w, 2) == 0 && EmbeddingsUpTo(s, 2, w, 3) == 0 && EmbeddingsUpTo(s, 2, w, 4) == 0
  {
    EntryPointLineBackward1(s, w);
  }

  lemma EntryPointLineBackward3(s: string, w: string)
    requires s == "XSAMXAXMXM" && w == "XMAS"
    ensures EmbeddingsUpTo(s, 3, w, 1) == 1 && EmbeddingsUpTo(s, 3, w, 2) == 0 && EmbeddingsUpTo(s, 3, w, 3) == 0 && EmbeddingsUpTo(s, 3, w, 4) == 0
  {
    EntryPointLineBackward2(s, w);
  }

  lemma EntryPointLineBackward4(s: string, w: string)
    requires s == "XSAMXAXMXM" && w == "XMAS"
    ensures EmbeddingsUpTo(s, 4, w, 1) == 1 && EmbeddingsUpTo(s, 4, w, 2) == 1 && EmbeddingsUpTo(s, 4, w, 3) == 0 && EmbeddingsUpTo(s, 4, w, 4) == 0
  {
    EntryPointLineBackward3(s, w);
  }

  lemma EntryPointLineBackward5(s: string, w: string)
    requires s == "XSAMXAXMXM" && w == "XMAS"
    ensures EmbeddingsUpTo(s, 5, w, 1) == 2 && EmbeddingsUpTo(s, 5, w, 2) == 1 && EmbeddingsUpTo(s, 5, w, 3) == 0 && EmbeddingsUpTo(s, 5, w, 4) == 0
  {
    EntryPointLineBackward4(s, w);
  }

  lemma EntryPointLineBackward6(s: string, w: string)
    requires s == "XSAMXAXMXM" && w == "XMAS"
    ensures EmbeddingsUpTo(s, 6, w, 1) == 2 && EmbeddingsUpTo(s, 6, w, 2) == 1 && EmbeddingsUpTo(s, 6, w, 3) == 1 && EmbeddingsUpTo(s, 6, w, 4) == 0
  {
    EntryPointLineBackward5(s, w);
  }

  lemma EntryPointLineBackward7(s: string, w: string)
    requires s == "XSAMXAXMXM" && w == "XMAS"
    ensures EmbeddingsUpTo(s, 7, w, 1) == 3 && EmbeddingsUpTo(s, 7, w, 2) == 1 && EmbeddingsUpTo(s, 7, w, 3) == 1 && EmbeddingsUpTo(s, 7, w, 4) == 0
  {
    EntryPointLineBackward6(s, w);
  }

  lemma EntryPointLineBackward8(s: string, w: string)
    requires s == "XSAMXAXMXM" && w == "XMAS"
    ensures EmbeddingsUpTo(s, 8, w, 1) == 3 && EmbeddingsUpTo(s, 8, w, 2) == 4 && EmbeddingsUpTo(s, 8, w, 3) == 1 && EmbeddingsUpTo(s, 8, w, 4) == 0
  {
    EntryPointLineBackward7(s, w);
  }

  lemma EntryPointLineBackward9(s: string, w: string)
    requires s == "XSAMXAXMXM" && w == "XMAS"
    ensures EmbeddingsUpTo(s, 9, w, 1) == 4 && EmbeddingsUpTo(s, 9, w, 2) == 4 && EmbeddingsUpTo(s, 9, w, 3) == 1 && EmbeddingsUpTo(s, 9, w, 4) == 0
  {
    EntryPointLineBackward8(s, w);
  }

  lemma EntryPointLineBackward10(s: string, w: string)
    requires s == "XSAMXAXMXM" && w == "XMAS"
    ensures EmbeddingsUpTo(s, 10, w, 1) == 4 && EmbeddingsUpTo(s, 10, w, 2) == 8 && EmbeddingsUpTo(s, 10, w, 3) == 1 && EmbeddingsUpTo(s, 10, w, 4) == 0
  {
    EntryPointLineBackward9(s, w);
  }

  lemma EntryPointLineLetters(line: string, word: string)
    requires line == "MXMXAXMASX" && word == "XMAS"
    ensures AllIn(line, word)
  {
  }

  lemma EntryPointLineReversed(line: string)
    requires line == "MXMXAXMASX"
    ensures Reverse(line) == "XSAMXAXMXM"
  {
  }

  /** The line printed by the program's entry point is counted five times,
      although it holds one contiguous "XMAS". */
  lemma EntryPointLine(line: string, word: string)
    requires line == "MXMXAXMASX" && word == "XMAS"
    ensures AllIn(line, word)
    ensures MatchesInDirection(line, word) == 5
  {
    EntryPointLineLetters(line, word);
    EntryPointLineReversed(line);
    XmasDistinct(word);
    EntryPointLineForward10(line, word);
    EntryPointLineBackward10(Reverse(line), word);
    MatchesInDirectionEmbeddings(line, word);
  }

  // DoubledFirstLetter: "XXMAS", read forwards and backwards

  lemma DoubledFirstLetterForward0(s: string, w: string)
    requires s == "XXMAS" && w == "XMAS"
    ensures EmbeddingsUpTo(s, 0, w, 1) == 0 && EmbeddingsUpTo(s, 0, w, 2) == 0 && EmbeddingsUpTo(s, 0, w, 3) == 0 && EmbeddingsUpTo(s, 0, w, 4) == 0
  {
  }

  lemma DoubledFirstLetterForward1(s: string, w: string)
    requires s == "XXMAS" && w == "XMAS"
    ensures EmbeddingsUpTo(s, 1, w, 1) == 1 && EmbeddingsUpTo(s, 1, w, 2) == 0 && EmbeddingsUpTo(s, 1, w, 3) == 0 && EmbeddingsUpTo(s, 1, w, 4) == 0
  {
    DoubledFirstLetterForward0(s, w);
  }

  lemma DoubledFirstLetterForward2(s: string, w: string)
    requires s == "XXMAS" && w == "XMAS"
    ensures EmbeddingsUpTo(s, 2, w, 1) == 2 && EmbeddingsUpTo(s, 2, w, 2) == 0 && EmbeddingsUpTo(s, 2, w, 3) == 0 && EmbeddingsUpTo(s, 2, w, 4) == 0
  {
    DoubledFirstLetterForward1(s, w);
  }

  lemma DoubledFirstLetterForward3(s: string, w: string)
    requires s == "XXMAS" && w == "XMAS"
    ensures EmbeddingsUpTo(s, 3, w, 1) == 2 && EmbeddingsUpTo(s, 3, w, 2) == 2 && EmbeddingsUpTo(s, 3, w, 3) == 0 && EmbeddingsUpTo(s, 3, w, 4) == 0
  {
    DoubledFirstLetterForward2(s, w);
  }

  lemma DoubledFirstLetterForward4(s: string, w: string)
    requires s == "XXMAS" && w == "XMAS"
    ensures EmbeddingsUpTo(s, 4, w, 1) == 2 && EmbeddingsUpTo(s, 4, w, 2) == 2 && EmbeddingsUpTo(s, 4, w, 3) == 2 && EmbeddingsUpTo(s, 4, w, 4) == 0
  {
    DoubledFirstLetterForward3(s, w);
  }

  lemma DoubledFirstLetterForward5(s: string, w: string)
    requires s == "XXMAS" && w == "XMAS"
    ensures EmbeddingsUpTo(s, 5, w, 1) == 2 && EmbeddingsUpTo(s, 5, w, 2) == 2 && EmbeddingsUpTo(s, 5, w, 3) == 2 && EmbeddingsUpTo(s, 5, w, 4) == 2
  {
    DoubledFirstLetterForward4(s, w);
  }

  lemma DoubledFirstLetterBackward0(s: string, w: string)
    requires s == "SAMXX" && w == "XMAS"
    ensures EmbeddingsUpTo(s, 0, w, 1) == 0 && EmbeddingsUpTo(s, 0, w, 2) == 0 && EmbeddingsUpTo(s, 0, w, 3) == 0 && EmbeddingsUpTo(s, 0, w, 4) == 0
  {
  }

  lemma DoubledFirstLetterBackward1(s: string, w: string)
    requires s == "SAMXX" && w == "XMAS"
    ensures EmbeddingsUpTo(s, 1, w, 1) == 0 && EmbeddingsUpTo(s, 1, w, 2) == 0 && EmbeddingsUpTo(s, 1, w, 3) == 0 && EmbeddingsUpTo(s, 1, w, 4) == 0
  {
    DoubledFirstLetterBackward0(s, w);
  }

  lemma DoubledFirstLetterBackward2(s: string, w: string)
    requires s == "SAMXX" && w == "XMAS"
    ensures EmbeddingsUpTo(s, 2, w, 1) == 0 && EmbeddingsUpTo(s, 2, w, 2) == 0 && EmbeddingsUpTo(s, 2, w, 3) == 0 && EmbeddingsUpTo(s, 2, w, 4) == 0
  {
    DoubledFirstLetterBackward1(s, w);
  }

  lemma DoubledFirstLetterBackward3(s: string, w: string)
    requires s == "SAMXX" && w == "XMAS"
    ensures EmbeddingsUpTo(s, 3, w, 1) == 0 && EmbeddingsUpTo(s, 3, w, 2) == 0 && EmbeddingsUpTo(s, 3, w, 3) == 0 && EmbeddingsUpTo(s, 3, w, 4) == 0
  {
    DoubledFirstLetterBackward2(s, w);
  }

  lemma DoubledFirstLetterBackward4(s: string, w: string)
    requires s == "SAMXX" && w == "XMAS"
    ensures EmbeddingsUpTo(s, 4, w, 1) == 1 && EmbeddingsUpTo(s, 4, w, 2) == 0 && EmbeddingsUpTo(s, 4, w, 3) == 0 && EmbeddingsUpTo(s, 4, w, 4) == 0
  {
    DoubledFirstLetterBackward3(s, w);
  }

  lemma DoubledFirstLetterBackward5(s: string, w: string)
    requires s == "SAMXX" && w == "XMAS"
    ensures EmbeddingsUpTo(s, 5, w, 1) == 2 && EmbeddingsUpTo(s, 5, w, 2) == 0 && EmbeddingsUpTo(s, 5, w, 3) == 0 && EmbeddingsUpTo(s, 5, w, 4) == 0
  {
    DoubledFirstLetterBackward4(s, w);
  }

  lemma DoubledFirstLetterLetters(line: string, word: string)
    requires line == "XXMAS" && word == "XMAS"
    ensures AllIn(line, word)
  {
  }

  lemma DoubledFirstLetterReversed(line: string)
    requires line == "XXMAS"
    ensures Reverse(line) == "SAMXX"
  {
  }

  /** A doubled first letter doubles the count. */
  lemma DoubledFirstLetter(line: string, word: string)
    requires line == "XXMAS" && word == "XMAS"
    ensures AllIn(line, word)
    ensures MatchesInDirection(line, word) == 2
  {
    DoubledFirstLetterLetters(line, word);
    DoubledFirstLetterReversed(line);
    XmasDistinct(word);
    DoubledFirstLetterForward5(line, word);
    DoubledFirstLetterBackward5(Reverse(line), word);
    MatchesInDirectionEmbeddings(line, word);
  }

  // WordItself: "XMAS", read forwards and backwards

  lemma WordItselfForward0(s: string, w: string)
    requires s == "XMAS" && w == "XMAS"
    ensures EmbeddingsUpTo(s, 0, w, 1) == 0 && EmbeddingsUpTo(s, 0, w, 2) == 0 && EmbeddingsUpTo(s, 0, w, 3) == 0 && EmbeddingsUpTo(s, 0, w, 4) == 0
  {
  }

  lemma WordItselfForward1(s: string, w: string)
    requires s == "XMAS" && w == "XMAS"
    ensures EmbeddingsUpTo(s, 1, w, 1) == 1 && EmbeddingsUpTo(s, 1, w, 2) == 0 && EmbeddingsUpTo(s, 1, w, 3) == 0 && EmbeddingsUpTo(s, 1, w, 4) == 0
  {
    WordItselfForward0(s, w);
  }

  lemma WordItselfForward2(s: string, w: string)
    requires s == "XMAS" && w == "XMAS"
    ensures EmbeddingsUpTo(s, 2, w, 1) == 1 && EmbeddingsUpTo(s, 2, w, 2) == 1 && EmbeddingsUpTo(s, 2, w, 3) == 0 && EmbeddingsUpTo(s, 2, w, 4) == 0
  {
    WordItselfForward1(s, w);
  }

  lemma WordItselfForward3(s: string, w: string)
    requires s == "XMAS" && w == "XMAS"
    ensures EmbeddingsUpTo(s, 3, w, 1) == 1 && EmbeddingsUpTo(s, 3, w, 2) == 1 && EmbeddingsUpTo(s, 3, w, 3) == 1 && EmbeddingsUpTo(s, 3, w, 4) == 0
  {
    WordItselfForward2(s, w);
  }

  lemma WordItselfForward4(s: string, w: string)
    requires s == "XMAS" && w == "XMAS"
    ensures EmbeddingsUpTo(s, 4, w, 1) == 1 && EmbeddingsUpTo(s, 4, w, 2) == 1 && EmbeddingsUpTo(s, 4, w, 3) == 1 && EmbeddingsUpTo(s, 4, w, 4) == 1
  {
    WordItselfForward3(s, w);
  }

  lemma WordItselfBackward0(s: string, w: string)
    requires s == "SAMX" && w == "XMAS"
    ensures EmbeddingsUpTo(s, 0, w, 1) == 0 && EmbeddingsUpTo(s, 0, w, 2) == 0 && EmbeddingsUpTo(s, 0, w, 3) == 0 && EmbeddingsUpTo(s, 0, w, 4) == 0
  {
  }

  lemma WordItselfBackward1(s: string, w: string)
    requires s == "SAMX" && w == "XMAS"
    ensures EmbeddingsUpTo(s, 1, w, 1) == 0 && EmbeddingsUpTo(s, 1, w, 2) == 0 && EmbeddingsUpTo(s, 1, w, 3) == 0 && EmbeddingsUpTo(s, 1, w, 4) == 0
  {
    WordItselfBackward0(s, w);
  }

  lemma WordItselfBackward2(s: string, w: string)
    requires s == "SAMX" && w == "XMAS"
    ensures EmbeddingsUpTo(s, 2, w, 1) == 0 && EmbeddingsUpTo(s, 2, w, 2) == 0 && EmbeddingsUpTo(s, 2, w, 3) == 0 && EmbeddingsUpTo(s, 2, w, 4) == 0
  {
    WordItselfBackward1(s, w);
  }

  lemma WordItselfBackward3(s: string, w: string)
    requires s == "SAMX" && w == "XMAS"
    ensures EmbeddingsUpTo(s, 3, w, 1) == 0 && EmbeddingsUpTo(s, 3, w, 2) == 0 && EmbeddingsUpTo(s, 3, w, 3) == 0 && EmbeddingsUpTo(s, 3, w, 4) == 0
  {
    WordItselfBackward2(s, w);
  }

  lemma WordItselfBackward4(s: string, w: string)
    requires s == "SAMX" && w == "XMAS"
    ensures EmbeddingsUpTo(s, 4, w, 1) == 1 && EmbeddingsUpTo(s, 4, w, 2) == 0 && EmbeddingsUpTo(s, 4, w, 3) == 0 && EmbeddingsUpTo(s, 4, w, 4) == 0
  {
    WordItselfBackward3(s, w);
  }

  lemma WordItselfLetters(line: string, word: string)
    requires line == "XMAS" && word == "XMAS"
    ensures AllIn(line, word)
  {
  }

  lemma WordItselfReversed(line: string)
    requires line == "XMAS"
    ensures Reverse(line) == "SAMX"
  {
  }

  /** The word itself is counted once, in the forward reading. */
  lemma WordItself(line: string, word: string)
    requires line == "XMAS" && word == "XMAS"
    ensures AllIn(line, word)
    ensures MatchesInDirection(line, word) == 1
  {
    WordItselfLetters(line, word);
    WordItselfReversed(line);
    XmasDistinct(word);
    WordItselfForward4(line, word);
    WordItselfBackward4(Reverse(line), word);
    MatchesInDirectionEmbeddings(line, word);
  }

  // WordReversed: "SAMX", read forwards and backwards

  lemma WordReversedForward0(s: string, w: string)
    requires s == "SAMX" && w == "XMAS"
    ensures EmbeddingsUpTo(s, 0, w, 1) == 0 && EmbeddingsUpTo(s, 0, w, 2) == 0 && EmbeddingsUpTo(s, 0, w, 3) == 0 && EmbeddingsUpTo(s, 0, w, 4) == 0
  {
  }

  lemma WordReversedForward1(s: string, w: string)
    requires s == "SAMX" && w == "XMAS"
    ensures EmbeddingsUpTo(s, 1, w, 1) == 0 && EmbeddingsUpTo(s, 1, w, 2) == 0 && EmbeddingsUpTo(s, 1, w, 3) == 0 && EmbeddingsUpTo(s, 1, w, 4) == 0
  {
    WordReversedForward0(s, w);
  }

  lemma WordReversedForward2(s: string, w: string)
    requires s == "SAMX" && w == "XMAS"
    ensures EmbeddingsUpTo(s, 2, w, 1) == 0 && EmbeddingsUpTo(s, 2, w, 2) == 0 && EmbeddingsUpTo(s, 2, w, 3) == 0 && EmbeddingsUpTo(s, 2, w, 4) == 0
  {
    WordReversedForward1(s, w);
  }

  lemma WordReversedForward3(s: string, w: string)
    requires s == "SAMX" && w == "XMAS"
    ensures EmbeddingsUpTo(s, 3, w, 1) == 0 && EmbeddingsUpTo(s, 3, w, 2) == 0 && EmbeddingsUpTo(s, 3, w, 3) == 0 && EmbeddingsUpTo(s, 3, w, 4) == 0
  {
    WordReversedForward2(s, w);
  }

  lemma WordReversedForward4(s: string, w: string)
    requires s == "SAMX" && w == "XMAS"
    ensures EmbeddingsUpTo(s, 4, w, 1) == 1 && EmbeddingsUpTo(s, 4, w, 2) == 0 && EmbeddingsUpTo(s, 4, w, 3) == 0 && EmbeddingsUpTo(s, 4, w, 4) == 0
  {
    WordReversedForward3(s, w);
  }

  lemma WordReversedBackward0(s: string, w: string)
    requires s == "XMAS" && w == "XMAS"
    ensures EmbeddingsUpTo(s, 0, w, 1) == 0 && EmbeddingsUpTo(s, 0, w, 2) == 0 && EmbeddingsUpTo(s, 0, w, 3) == 0 && EmbeddingsUpTo(s, 0, w, 4) == 0
  {
  }

  lemma WordReversedBackward1(s: string, w: string)
    requires s == "XMAS" && w == "XMAS"
    ensures EmbeddingsUpTo(s, 1, w, 1) == 1 && EmbeddingsUpTo(s, 1, w, 2) == 0 && EmbeddingsUpTo(s, 1, w, 3) == 0 && EmbeddingsUpTo(s, 1, w, 4) == 0
  {
    WordReversedBackward0(s, w);
  }

  lemma WordReversedBackward2(s: string, w: string)
    requires s == "XMAS" && w == "XMAS"
    ensures EmbeddingsUpTo(s, 2, w, 1) == 1 && EmbeddingsUpTo(s, 2, w, 2) == 1 && EmbeddingsUpTo(s, 2, w, 3) == 0 && EmbeddingsUpTo(s, 2, w, 4) == 0
  {
    WordReversedBackward1(s, w);
  }

  lemma WordReversedBackward3(s: string, w: string)
    requires s == "XMAS" && w == "XMAS"
    ensures EmbeddingsUpTo(s, 3, w, 1) == 1 && EmbeddingsUpTo(s, 3, w, 2) == 1 && EmbeddingsUpTo(s, 3, w, 3) == 1 && EmbeddingsUpTo(s, 3, w, 4) == 0
  {
    WordReversedBackward2(s, w);
  }

  lemma WordReversedBackward4(s: string, w: string)
    requires s == "XMAS" && w == "XMAS"
    ensures EmbeddingsUpTo(s, 4, w, 1) == 1 && EmbeddingsUpTo(s, 4, w, 2) == 1 && EmbeddingsUpTo(s, 4, w, 3) == 1 && EmbeddingsUpTo(s, 4, w, 4) == 1
  {
    WordReversedBackward3(s, w);
  }

  lemma WordReversedLetters(line: string, word: string)
    requires line == "SAMX" && word == "XMAS"
    ensures AllIn(line, word)
  {
  }

  lemma WordReversedReversed(line: string)
    requires line == "SAMX"
    ensures Reverse(line) == "XMAS"
  {
  }

  /** The reversed word is counted once, in the backward reading. */
  lemma WordReversed(line: string, word: string)
    requires line == "SAMX" && word == "XMAS"
    ensures AllIn(line, word)
    ensures MatchesInDirection(line, word) == 1
  {
    WordReversedLetters(line, word);
    WordReversedReversed(line);
    XmasDistinct(word);
    WordReversedForward4(line, word);
    WordReversedBackward4(Reverse(line), word);
    MatchesInDirectionEmbeddings(line, word);
  }

  // CommentLine: "MASAMXXAM", read forwards and backwards

  lemma CommentLineForward0(s: string, w: string)
    requires s == "MASAMXXAM" && w == "XMAS"
    ensures EmbeddingsUpTo(s, 0, w, 1) == 0 && EmbeddingsUpTo(s, 0, w, 2) == 0 && EmbeddingsUpTo(s, 0, w, 3) == 0 && EmbeddingsUpTo(s, 0, w, 4) == 0
  {
  }

  lemma CommentLineForward1(s: string, w: string)
    requires s == "MASAMXXAM" && w == "XMAS"
    ensures EmbeddingsUpTo(s, 1, w, 1) == 0 && EmbeddingsUpTo(s, 1, w, 2) == 0 && EmbeddingsUpTo(s, 1, w, 3) == 0 && EmbeddingsUpTo(s, 1, w, 4) == 0
  {
    CommentLineForward0(s, w);
  }

  lemma CommentLineForward2(s: string, w: string)
    requires s == "MASAMXXAM" && w == "XMAS"
    ensures EmbeddingsUpTo(s, 2, w, 1) == 0 && EmbeddingsUpTo(s, 2, w, 2) == 0 && EmbeddingsUpTo(s, 2, w, 3) == 0 && EmbeddingsUpTo(s, 2, w, 4) == 0
  {
    CommentLineForward1(s, w);
  }

  lemma CommentLineForward3(s: string, w: string)
    requires s == "MASAMXXAM" && w == "XMAS"
    ensures EmbeddingsUpTo(s, 3, w, 1) == 0 && EmbeddingsUpTo(s, 3, w, 2) == 0 && EmbeddingsUpTo(s, 3, w, 3) == 0 && EmbeddingsUpTo(s, 3, w, 4) == 0
  {
    CommentLineForward2(s, w);
  }

  lemma CommentLineForward4(s: string, w: string)
    requires s == "MASAMXXAM" && w == "XMAS"
    ensures EmbeddingsUpTo(s, 4, w, 1) == 0 && EmbeddingsUpTo(s, 4, w, 2) == 0 && EmbeddingsUpTo(s, 4, w, 3) == 0 && EmbeddingsUpTo(s, 4, w, 4) == 0
  {
    CommentLineForward3(s, w);
  }

  lemma CommentLineForward5(s: string, w: string)
    requires s == "MASAMXXAM" && w == "XMAS"
    ensures EmbeddingsUpTo(s, 5, w, 1) == 0 && EmbeddingsUpTo(s, 5, w, 2) == 0 && EmbeddingsUpTo(s, 5, w, 3) == 0 && EmbeddingsUpTo(s, 5, w, 4) == 0
  {
    CommentLineForward4(s, w);
  }

  lemma CommentLineForward6(s: string, w: string)
    requires s == "MASAMXXAM" && w == "XMAS"
    ensures EmbeddingsUpTo(s, 6, w, 1) == 1 && EmbeddingsUpTo(s, 6, w, 2) == 0 && EmbeddingsUpTo(s, 6, w, 3) == 0 && EmbeddingsUpTo(s, 6, w, 4) == 0
  {
    CommentLineForward5(s, w);
  }

  lemma CommentLineForward7(s: string, w: string)
    requires s == "MASAMXXAM" && w == "XMAS"
    ensures EmbeddingsUpTo(s, 7, w, 1) == 2 && EmbeddingsUpTo(s, 7, w, 2) == 0 && EmbeddingsUpTo(s, 7, w, 3) == 0 && EmbeddingsUpTo(s, 7, w, 4) == 0
  {
    CommentLineForward6(s, w);
  }

  lemma CommentLineForward8(s: string, w: string)
    requires s == "MASAMXXAM" && w == "XMAS"
    ensures EmbeddingsUpTo(s, 8, w, 1) == 2 && EmbeddingsUpTo(s, 8, w, 2) == 0 && EmbeddingsUpTo(s, 8, w, 3) == 0 && EmbeddingsUpTo(s, 8, w, 4) == 0
  {
    CommentLineForward7(s, w);
  }

  lemma CommentLineForward9(s: string, w: string)
    requires s == "MASAMXXAM" && w == "XMAS"
    ensures EmbeddingsUpTo(s, 9, w, 1) == 2 && EmbeddingsUpTo(s, 9, w, 2) == 2 && EmbeddingsUpTo(s, 9, w, 3) == 0 && EmbeddingsUpTo(s, 9, w, 4) == 0
  {
    CommentLineForward8(s, w);
  }

  lemma CommentLineBackward0(s: string, w: string)
    requires s == "MAXXMASAM" && w == "XMAS"
    ensures EmbeddingsUpTo(s, 0, w, 1) == 0 && EmbeddingsUpTo(s, 0, w, 2) == 0 && EmbeddingsUpTo(s, 0, w, 3) == 0 && EmbeddingsUpTo(s, 0, w, 4) == 0
  {
  }

  lemma CommentLineBackward1(s: string, w: string)
    requires s == "MAXXMASAM" && w == "XMAS"
    ensures EmbeddingsUpTo(s, 1, w, 1) == 0 && EmbeddingsUpTo(s, 1, w, 2) == 0 && EmbeddingsUpTo(s, 1, w, 3) == 0 && EmbeddingsUpTo(s, 1, w, 4) == 0
  {
    CommentLineBackward0(s, w);
  }

  lemma CommentLineBackward2(s: string, w: string)
    requires s == "MAXXMASAM" && w == "XMAS"
    ensures EmbeddingsUpTo(s, 2, w, 1) == 0 && EmbeddingsUpTo(s, 2, w, 2) == 0 && EmbeddingsUpTo(s, 2, w, 3) == 0 && EmbeddingsUpTo(s, 2, w, 4) == 0
  {
    CommentLineBackward1(s, w);
  }

  lemma CommentLineBackward3(s: string, w: string)
    requires s == "MAXXMASAM" && w == "XMAS"
    ensures EmbeddingsUpTo(s, 3, w, 1) == 1 && EmbeddingsUpTo(s, 3, w, 2) == 0 && EmbeddingsUpTo(s, 3, w, 3) == 0 && EmbeddingsUpTo(s, 3, w, 4) == 0
  {
    CommentLineBackward2(s, w);
  }

  lemma CommentLineBackward4(s: string, w: string)
    requires s == "MAXXMASAM" && w == "XMAS"
    ensures EmbeddingsUpTo(s, 4, w, 1) == 2 && EmbeddingsUpTo(s, 4, w, 2) == 0 && EmbeddingsUpTo(s, 4, w, 3) == 0 && EmbeddingsUpTo(s, 4, w, 4) == 0
  {
    CommentLineBackward3(s, w);
  }

  lemma CommentLineBackward5(s: string, w: string)
    requires s == "MAXXMASAM" && w == "XMAS"
    ensures EmbeddingsUpTo(s, 5, w, 1) == 2 && EmbeddingsUpTo(s, 5, w, 2) == 2 && EmbeddingsUpTo(s, 5, w, 3) == 0 && EmbeddingsUpTo(s, 5, w, 4) == 0
  {
    CommentLineBackward4(s, w);
  }

  lemma CommentLineBackward6(s: string, w: string)
    requires s == "MAXXMASAM" && w == "XMAS"
    ensures EmbeddingsUpTo(s, 6, w, 1) == 2 && EmbeddingsUpTo(s, 6, w, 2) == 2 && EmbeddingsUpTo(s, 6, w, 3) == 2 && EmbeddingsUpTo(s, 6, w, 4) == 0
  {
    CommentLineBackward5(s, w);
  }

  lemma CommentLineBackward7(s: string, w: string)
    requires s == "MAXXMASAM" && w == "XMAS"
    ensures EmbeddingsUpTo(s, 7, w, 1) == 2 && EmbeddingsUpTo(s, 7, w, 2) == 2 && EmbeddingsUpTo(s, 7, w, 3) == 2 && EmbeddingsUpTo(s, 7, w, 4) == 2
  {
    CommentLineBackward6(s, w);
  }

  lemma CommentLineBackward8(s: string, w: string)
    requires s == "MAXXMASAM" && w == "XMAS"
    ensures EmbeddingsUpTo(s, 8, w, 1) == 2 && EmbeddingsUpTo(s, 8, w, 2) == 2 && EmbeddingsUpTo(s, 8, w, 3) == 4 && EmbeddingsUpTo(s, 8, w, 4) == 2
  {
    CommentLineBackward7(s, w);
  }

  lemma CommentLineBackward9(s: string, w: string)
    requires s == "MAXXMASAM" && w == "XMAS"
    ensures EmbeddingsUpTo(s, 9, w, 1) == 2 && EmbeddingsUpTo(s, 9, w, 2) == 4 && EmbeddingsUpTo(s, 9, w, 3) == 4 && EmbeddingsUpTo(s, 9, w, 4) == 2
  {
    CommentLineBackward8(s, w);
  }

  lemma CommentLineLetters(line: string, word: string)
    requires line == "MASAMXXAM" && word == "XMAS"
    ensures AllIn(line, word)
  {
  }

  lemma CommentLineReversed(line: string)
    requires line == "MASAMXXAM"
    ensures Reverse(line) == "MAXXMASAM"
  {
  }

  /** The line named in the counting function's comment is counted twice,
      both in the backward reading, although it holds "XMAS" once, backwards. */
  lemma CommentLine(line: string, word: string)
    requires line == "MASAMXXAM" && word == "XMAS"
    ensures AllIn(line, word)
    ensures MatchesInDirection(line, word) == 2
  {
    CommentLineLetters(line, word);
    CommentLineReversed(line);
    XmasDistinct(word);
    CommentLineForward9(line, word);
    CommentLineBackward9(Reverse(line), word);
    MatchesInDirectionEmbeddings(line, word);
  }

}
