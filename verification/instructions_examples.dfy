/**
 Worked examples of the instruction scanner on short memory strings.
 */
module InstructionsExamples {
  import opened Instructions

  /** A well-formed instruction is read with both operands. */
  lemma PlainMul(s: string)
    requires s == "mul(44,46)"
    ensures MatchAt(s, 0) == Some(Lexeme(MulToken(44, 46), 10))
  {
    assert !IsDigit(s[6]) && !IsDigit(s[9]);
    assert DigitRun(s, 6) == 0 && DigitRun(s, 5) == 1 && DigitRun(s, 4) == 2;
    assert DigitRun(s, 9) == 0 && DigitRun(s, 8) == 1 && DigitRun(s, 7) == 2;
  }

  /** A number of four digits is not an operand. */
  lemma FourDigitsRejected(s: string)
    requires s == "mul(1234,5)"
    ensures MatchAt(s, 0) == None
  {
    assert !IsDigit(s[8]);
    assert DigitRun(s, 8) == 0;
    assert DigitRun(s, 7) == 1;
    assert DigitRun(s, 6) == 2;
    assert DigitRun(s, 5) == 3;
    assert DigitRun(s, 4) == 4;
  }

  /** Spaces inside an instruction are not allowed. */
  lemma SpacesRejected(s: string)
    requires s == "mul ( 2 , 4 )"
    ensures MatchAt(s, 0) == None
  {
    assert s[3] == ' ';
  }

  /** Square brackets do not open an instruction. */
  lemma BracketRejected(s: string)
    requires s == "mul[3,7]"
    ensures MatchAt(s, 0) == None
  {
    assert s[3] == '[';
  }

  /** An instruction must be closed by a parenthesis. */
  lemma UnclosedRejected(s: string)
    requires s == "mul(32,64]"
    ensures MatchAt(s, 0) == None
  {
    assert !IsDigit(s[6]) && !IsDigit(s[9]);
    assert DigitRun(s, 6) == 0 && DigitRun(s, 5) == 1 && DigitRun(s, 4) == 2;
    assert DigitRun(s, 9) == 0 && DigitRun(s, 8) == 1 && DigitRun(s, 7) == 2;
  }

  /** `do()` is found inside a longer word. */
  lemma DoInsideWord(s: string)
    requires s == "undo()"
    ensures MatchAt(s, 0) == None && MatchAt(s, 1) == None
    ensures MatchAt(s, 2) == Some(Lexeme(Do, 6))
  {
    assert s[0] == 'u' && s[1] == 'n';
    assert s[2..6] == "do()";
  }

  /** `don't()` is not mistaken for `do()`. */
  lemma DontRead(s: string)
    requires s == "don't()"
    ensures MatchAt(s, 0) == Some(Lexeme(Dont, 7))
  {
    assert s[2] == 'n';
    assert s[0..7] == "don't()";
  }

  /** The scanner skips the stray character and reads the two instructions
      that follow, in order. */
  lemma ShortTokens(s: string)
    requires s == "xmul(2,4)do()"
    ensures Tokens(s) == [MulToken(2, 4), Do]
  {
    var t := Recognise(s);
    RecogniseAdvances(s);
    assert t[0] == None by { assert s[0] == 'x'; }
    assert t[1] == Some(Lexeme(MulToken(2, 4), 9)) by {
      assert s[1..5] == "mul(";
      assert !IsDigit(s[6]) && !IsDigit(s[8]);
      assert DigitRun(s, 6) == 0 && DigitRun(s, 5) == 1;
      assert DigitRun(s, 8) == 0 && DigitRun(s, 7) == 1;
    }
    assert t[9] == Some(Lexeme(Do, 13)) by { assert s[9..13] == "do()"; }
    assert Scan(t, 9) == [Found(9, Do, 13)];
    assert Scan(t, 1) == [Found(1, MulToken(2, 4), 9), Found(9, Do, 13)];
  }

  /** The fold over an instruction list that starts enabled: the
      multiplications after `don't()` are dropped until `do()` turns them back
      on. */
  lemma SampleKept(ts: seq<Token>)
    requires ts == [MulToken(2, 4), Dont, MulToken(5, 5), MulToken(11, 8), Do, MulToken(8, 5)]
    ensures Kept(ts, |ts|) == [Multiplication(2, 4), Multiplication(8, 5)]
  {
  }
}
