/**
 Corrupted memory: the instructions `mul(x,y)`, `do()` and `don't()` are
 picked out of a string by a left-to-right scan, and the multiplications met
 while multiplication is enabled are collected.

 The pattern `mul\((\d{1,3}),(\d{1,3})\)|do\(\)|don't\(\)` is written out as
 a character scanner: `MatchAt` recognises one instruction at one position,
 and `Matches` finds the leftmost matches one after another, resuming where
 the previous match ended.
 */
module Instructions {

  datatype Option<T> = None | Some(value: T)

  /** A multiplication to perform, as collected from memory. */
  datatype Multiplication = Multiplication(x: int, y: int)

  /** One recognised instruction. */
  datatype Token = MulToken(x: nat, y: nat) | Do | Dont

  /** An instruction recognised at a position, with the position just past it. */
  datatype Lexeme = Lexeme(token: Token, end: nat)

  /** An instruction found by the scan: where it starts, what it is, where it ends. */
  datatype Found = Found(start: nat, token: Token, end: nat)

  /** The product of the two operands. */
  function Mul(m: Multiplication): int
  {
    m.x * m.y
  }

  // ---------------------------------------------------------------------------
  // Digits and decimal values
  // ---------------------------------------------------------------------------

  predicate IsDigit(c: char)
  {
    '0' <= c <= '9'
  }

  /** The `n` characters from position `i` are all digits. */
  predicate AllDigits(s: string, i: nat, n: nat)
  {
    i + n <= |s| && forall k :: i <= k < i + n ==> IsDigit(s[k])
  }

  function Pow10(n: nat): nat
  {
    if n == 0 then 1 else 10 * Pow10(n - 1)
  }

  /** The length of the run of digits starting at position `i`: all digits,
      and followed by the end of the string or a non-digit. */
  function DigitRun(s: string, i: nat): (n: nat)
    requires i <= |s|
    ensures AllDigits(s, i, n)
    ensures i + n == |s| || !IsDigit(s[i + n])
    decreases |s| - i
  {
    if i < |s| && IsDigit(s[i]) then 1 + DigitRun(s, i + 1) else 0
  }

  /** The decimal number written by the `n` digits from position `i`; it has
      fewer than `n + 1` decimal places. */
  function DecimalValue(s: string, i: nat, n: nat): (v: nat)
    requires AllDigits(s, i, n)
    ensures v < Pow10(n)
    decreases n
  {
    if n == 0 then 0
    else 10 * DecimalValue(s, i, n - 1) + (s[i + n - 1] as int - '0' as int)
  }

  /** The value depends only on the digits read. */
  lemma {:induction false} DecimalValueShift(s: string, i: nat, t: string, j: nat, n: nat)
    requires AllDigits(s, i, n) && AllDigits(t, j, n)
    requires forall k :: i <= k < i + n ==> s[k] == t[k - i + j]
    ensures DecimalValue(s, i, n) == DecimalValue(t, j, n)
    decreases n
  {
    if n > 0 {
      DecimalValueShift(s, i, t, j, n - 1);
      assert s[i + n - 1] == t[j + n - 1];
    }
  }

  /** The shortest decimal writing of `v`, without leading zeros. */
  function ToDecimal(v: nat): (d: string)
    ensures 1 <= |d|
    decreases v
  {
    if v < 10 then [('0' as int + v) as char]
    else ToDecimal(v / 10) + [('0' as int + v % 10) as char]
  }

  /** The decimal writing of `v` consists of digits, is as long as `v`
      needs, and reads back as `v`. */
  lemma {:induction false} ToDecimalRoundTrip(v: nat)
    ensures AllDigits(ToDecimal(v), 0, |ToDecimal(v)|)
    ensures v < Pow10(|ToDecimal(v)|)
    ensures DecimalValue(ToDecimal(v), 0, |ToDecimal(v)|) == v
    ensures v < 10 <==> |ToDecimal(v)| == 1
    ensures v < 100 <==> |ToDecimal(v)| <= 2
    ensures v < 1000 <==> |ToDecimal(v)| <= 3
    decreases v
  {
    var d := ToDecimal(v);
    if v >= 10 {
      var p := ToDecimal(v / 10);
      ToDecimalRoundTrip(v / 10);
      assert d == p + [('0' as int + v % 10) as char];
      assert AllDigits(d, 0, |d|);
      DecimalValueShift(d, 0, p, 0, |p|);
      assert DecimalValue(d, 0, |d|) == 10 * (v / 10) + v % 10;
    }
  }

  // ---------------------------------------------------------------------------
  // One instruction at one position
  // ---------------------------------------------------------------------------

  /** The string `w` occurs at position `i`. */
  predicate HasAt(s: string, i: nat, w: string)
  {
    i + |w| <= |s| && s[i..i + |w|] == w
  }

  /** `mul(` + digits + `,` + digits + `)` at position `i`, the two numbers
      being 1 to 3 digits long and written with `a` and `b` digits. */
  predicate MulPattern(s: string, i: nat, a: nat, b: nat)
  {
    && 1 <= a <= 3 && 1 <= b <= 3
    && i + a + b + 6 <= |s|
    && HasAt(s, i, "mul(")
    && AllDigits(s, i + 4, a) && s[i + 4 + a] == ','
    && AllDigits(s, i + 5 + a, b) && s[i + 5 + a + b] == ')'
  }

  /** The multiplication instruction at position `i`, if there is one. */
  function MulAt(s: string, i: nat): (r: Option<Lexeme>)
    requires HasAt(s, i, "mul(")
    ensures r.Some? ==> i < r.value.end <= |s|
    ensures r.Some? ==> r.value.token.MulToken? && r.value.token.x <= 999 && r.value.token.y <= 999
  {
    var a := DigitRun(s, i + 4);
    var comma := i + 4 + a;
    if 1 <= a <= 3 && comma < |s| && s[comma] == ',' then
      var b := DigitRun(s, comma + 1);
      var close := comma + 1 + b;
      if 1 <= b <= 3 && close < |s| && s[close] == ')' then
        Some(Lexeme(MulToken(DecimalValue(s, i + 4, a), DecimalValue(s, comma + 1, b)), close + 1))
      else None
    else None
  }

  /** The instruction that starts at position `i`, if any, tried in the
      pattern's order: multiplication, `do()`, `don't()`. */
  function MatchAt(s: string, i: nat): (r: Option<Lexeme>)
    requires i <= |s|
    ensures r.Some? ==> i < r.value.end <= |s|
    ensures r.Some? && r.value.token.MulToken? ==> r.value.token.x <= 999 && r.value.token.y <= 999
  {
    if HasAt(s, i, "mul(") then MulAt(s, i)
    else if HasAt(s, i, "do()") then Some(Lexeme(Do, i + 4))
    else if HasAt(s, i, "don't()") then Some(Lexeme(Dont, i + 7))
    else None
  }

  /** A recognised multiplication is exactly an occurrence of the pattern:
      the operands are the values of its two digit groups and the match ends
      after the closing parenthesis. */
  lemma MatchAtMul(s: string, i: nat, a: nat, b: nat)
    requires i <= |s|
    requires MulPattern(s, i, a, b)
    ensures MatchAt(s, i) ==
      Some(Lexeme(MulToken(DecimalValue(s, i + 4, a), DecimalValue(s, i + 5 + a, b)), i + a + b + 6))
  {
  }

  /** Conversely, every recognised multiplication is an occurrence of the
      pattern with those operands. */
  lemma MatchAtMulSound(s: string, i: nat)
    requires i <= |s|
    requires MatchAt(s, i).Some? && MatchAt(s, i).value.token.MulToken?
    ensures var l := MatchAt(s, i).value;
      exists a: nat, b: nat :: MulPattern(s, i, a, b) && l.end == i + a + b + 6
        && l.token.x == DecimalValue(s, i + 4, a) && l.token.y == DecimalValue(s, i + 5 + a, b)
  {
    var a := DigitRun(s, i + 4);
    var b := DigitRun(s, i + 5 + a);
    assert MulPattern(s, i, a, b);
  }

  /** `do()` and `don't()` are recognised exactly where they are written, and
      only there. */
  lemma MatchAtToggle(s: string, i: nat)
    requires i <= |s|
    ensures MatchAt(s, i) == Some(Lexeme(Do, i + 4)) <==> HasAt(s, i, "do()")
    ensures MatchAt(s, i) == Some(Lexeme(Dont, i + 7)) <==> HasAt(s, i, "don't()")
  {
    if HasAt(s, i, "mul(") {
      assert s[i + 1] == 'u';
    } else if HasAt(s, i, "do()") {
      assert s[i + 2] == '(';
    }
  }

  /** No instruction starts where none of the three literal prefixes is written. */
  lemma MatchAtNone(s: string, i: nat)
    requires i <= |s|
    requires !HasAt(s, i, "mul(") && !HasAt(s, i, "do()") && !HasAt(s, i, "don't()")
    ensures MatchAt(s, i) == None
  {
  }

  /** The canonical text of a token. */
  function Render(t: Token): string
  {
    match t
    case MulToken(x, y) => "mul(" + ToDecimal(x) + "," + ToDecimal(y) + ")"
    case Do => "do()"
    case Dont => "don't()"
  }

  /** Recognising the text of a token gives back that token, consuming the
      whole text, when its operands have at most three digits. */
  lemma MatchAtRender(t: Token)
    requires t.MulToken? ==> t.x <= 999 && t.y <= 999
    ensures MatchAt(Render(t), 0) == Some(Lexeme(t, |Render(t)|))
  {
    match t
    case MulToken(x, y) =>
      var dx := ToDecimal(x);
      var dy := ToDecimal(y);
      ToDecimalRoundTrip(x);
      ToDecimalRoundTrip(y);
      assert Render(t) == "mul(" + dx + [','] + dy + [')'];
      RenderedMulLayout(Render(t), "mul(", dx, dy);
      RenderedMulValues(Render(t), dx, dy);
      RenderedMul(Render(t), dx, dy);
    case Do =>
      MatchAtToggle(Render(t), 0);
    case Dont =>
      MatchAtToggle(Render(t), 0);
  }

  /** A multiplication written with two digit strings of one to three digits
      is recognised with their values as operands. */
  lemma RenderedMul(s: string, dx: string, dy: string)
    requires AllDigits(dx, 0, |dx|) && AllDigits(dy, 0, |dy|)
    requires MulPattern(s, 0, |dx|, |dy|)
    requires |s| == |dx| + |dy| + 6
    requires DecimalValue(s, 4, |dx|) == DecimalValue(dx, 0, |dx|)
    requires DecimalValue(s, 5 + |dx|, |dy|) == DecimalValue(dy, 0, |dy|)
    ensures MatchAt(s, 0) ==
      Some(Lexeme(MulToken(DecimalValue(dx, 0, |dx|), DecimalValue(dy, 0, |dy|)), |s|))
  {
    var a, b := |dx|, |dy|;
    var x, y := DecimalValue(s, 4, a), DecimalValue(s, 5 + a, b);
    MatchAtMul(s, 0, a, b);
    assert MatchAt(s, 0) == Some(Lexeme(MulToken(x, y), |s|));
  }

  /** The digit groups of a written multiplication have the values of the
      operand texts copied into them. */
  lemma RenderedMulValues(s: string, dx: string, dy: string)
    requires AllDigits(dx, 0, |dx|) && AllDigits(dy, 0, |dy|)
    requires MulPattern(s, 0, |dx|, |dy|)
    requires forall k :: 4 <= k < 4 + |dx| ==> s[k] == dx[k - 4 + 0]
    requires forall k :: 5 + |dx| <= k < 5 + |dx| + |dy| ==> s[k] == dy[k - (5 + |dx|) + 0]
    ensures DecimalValue(s, 4, |dx|) == DecimalValue(dx, 0, |dx|)
    ensures DecimalValue(s, 5 + |dx|, |dy|) == DecimalValue(dy, 0, |dy|)
  {
    DecimalValueShift(s, 4, dx, 0, |dx|);
    DecimalValueShift(s, 5 + |dx|, dy, 0, |dy|);
  }

  /** Where the parts of a written multiplication lie. */
  lemma RenderedMulLayout(s: string, prefix: string, dx: string, dy: string)
    requires prefix == "mul("
    requires s == prefix + dx + [','] + dy + [')']
    requires 1 <= |dx| <= 3 && AllDigits(dx, 0, |dx|)
    requires 1 <= |dy| <= 3 && AllDigits(dy, 0, |dy|)
    ensures MulPattern(s, 0, |dx|, |dy|)
    ensures |s| == |dx| + |dy| + 6
    ensures forall k :: 4 <= k < 4 + |dx| ==> s[k] == dx[k - 4 + 0]
    ensures forall k :: 5 + |dx| <= k < 5 + |dx| + |dy| ==> s[k] == dy[k - (5 + |dx|) + 0]
  {
    var a := |dx|;
    assert s[0..4] == prefix;
    assert forall k :: 4 <= k < 4 + a ==> s[k] == dx[k - 4];
    assert forall k :: 5 + a <= k < 5 + a + |dy| ==> s[k] == dy[k - (5 + a)];
  }

  // ---------------------------------------------------------------------------
  // Scanning the whole string
  // ---------------------------------------------------------------------------

  /** What is recognised at each position of a string. */
  function Recognise(s: string): (t: seq<Option<Lexeme>>)
    ensures |t| == |s|
    ensures forall p :: 0 <= p < |s| ==> t[p] == MatchAt(s, p)
  {
    seq(|s|, p requires 0 <= p < |s| => MatchAt(s, p))
  }

  /** Every entry of a table of recognised instructions ends after its own
      position and inside the string. */
  predicate Advances(t: seq<Option<Lexeme>>)
  {
    forall p :: 0 <= p < |t| && t[p].Some? ==> p < t[p].value.end <= |t|
  }

  lemma RecogniseAdvances(s: string)
    ensures Advances(Recognise(s))
  {
  }

  /** The instructions found from position `i` on, given what is recognised
      at each position: an instruction is taken if one starts there and the
      scan resumes after it; otherwise the scan moves on by one character. */
  function Scan(t: seq<Option<Lexeme>>, i: nat): seq<Found>
    requires Advances(t)
    requires i <= |t|
    decreases |t| - i
  {
    if i == |t| then []
    else match t[i]
      case None => Scan(t, i + 1)
      case Some(l) => [Found(i, l.token, l.end)] + Scan(t, l.end)
  }

  /** The instructions found in a string, leftmost first and without overlap. */
  function Matches(s: string): seq<Found>
  {
    RecogniseAdvances(s);
    Scan(Recognise(s), 0)
  }

  /** Where the scan stood before finding its `k`-th instruction. */
  function Resume(fs: seq<Found>, i: nat, k: nat): nat
    requires k <= |fs|
  {
    if k == 0 then i else fs[k - 1].end
  }

  /** Every instruction in `fs` is recognised where it starts, lies within
      the string after `i`, and ends no later than the next one starts. */
  predicate InOrder(t: seq<Option<Lexeme>>, i: nat, fs: seq<Found>)
  {
    && (forall k :: 0 <= k < |fs| ==>
          i <= fs[k].start < fs[k].end <= |t| && t[fs[k].start] == Some(Lexeme(fs[k].token, fs[k].end)))
    && (forall k :: 0 <= k < |fs| - 1 ==> fs[k].end <= fs[k + 1].start)
  }

  /** Nothing is recognised at the positions `fs` skips between the point
      where the scan resumed and the next instruction. */
  predicate NoneBetween(t: seq<Option<Lexeme>>, i: nat, fs: seq<Found>)
  {
    forall k, p :: 0 <= k < |fs| && Resume(fs, i, k) <= p < fs[k].start && p < |t| ==> t[p] == None
  }

  /** Nothing is recognised after the last instruction in `fs`. */
  predicate NoneAfter(t: seq<Option<Lexeme>>, i: nat, fs: seq<Found>)
  {
    forall p :: Resume(fs, i, |fs|) <= p < |t| ==> t[p] == None
  }

  /** Nothing is recognised at the positions `fs` skips. */
  predicate Leftmost(t: seq<Option<Lexeme>>, i: nat, fs: seq<Found>)
  {
    NoneBetween(t, i, fs) && NoneAfter(t, i, fs)
  }

  /** The scan finds instructions where they are recognised, in order and
      without overlap. */
  lemma {:induction false} ScanInOrder(t: seq<Option<Lexeme>>, i: nat)
    requires Advances(t)
    requires i <= |t|
    ensures InOrder(t, i, Scan(t, i))
    decreases |t| - i
  {
    if i < |t| {
      var fs := Scan(t, i);
      if t[i].None? {
        ScanInOrder(t, i + 1);
      } else {
        var l := t[i].value;
        ScanInOrder(t, l.end);
        var rest := Scan(t, l.end);
        assert fs == [Found(i, l.token, l.end)] + rest;
        assert forall k :: 1 <= k < |fs| ==> fs[k] == rest[k - 1];
      }
    }
  }

  /** The scan skips only positions where no instruction starts, up to each
      instruction it finds. */
  lemma {:induction false} ScanNoneBetween(t: seq<Option<Lexeme>>, i: nat)
    requires Advances(t)
    requires i <= |t|
    ensures NoneBetween(t, i, Scan(t, i))
    decreases |t| - i
  {
    if i < |t| {
      var fs := Scan(t, i);
      if t[i].None? {
        ScanNoneBetween(t, i + 1);
        forall k, p | 0 <= k < |fs| && Resume(fs, i, k) <= p < fs[k].start && p < |t|
          ensures t[p] == None
        {
          if p > i {
            assert Resume(fs, i + 1, k) <= p;
          }
        }
      } else {
        var l := t[i].value;
        ScanNoneBetween(t, l.end);
        var rest := Scan(t, l.end);
        assert fs == [Found(i, l.token, l.end)] + rest;
        forall k, p | 0 <= k < |fs| && Resume(fs, i, k) <= p < fs[k].start && p < |t|
          ensures t[p] == None
        {
          assert fs[k] == rest[k - 1];
          assert Resume(rest, l.end, k - 1) == Resume(fs, i, k);
        }
      }
    }
  }

  /** The scan skips only positions where no instruction starts, after the
      last instruction it finds. */
  lemma {:induction false} ScanNoneAfter(t: seq<Option<Lexeme>>, i: nat)
    requires Advances(t)
    requires i <= |t|
    ensures NoneAfter(t, i, Scan(t, i))
    decreases |t| - i
  {
    if i < |t| {
      var fs := Scan(t, i);
      if t[i].None? {
        ScanNoneAfter(t, i + 1);
        assert fs == Scan(t, i + 1);
        if |fs| > 0 {
          assert Resume(fs, i + 1, |fs|) == Resume(fs, i, |fs|);
        }
      } else {
        var l := t[i].value;
        ScanNoneAfter(t, l.end);
        var rest := Scan(t, l.end);
        assert fs == [Found(i, l.token, l.end)] + rest;
        assert Resume(rest, l.end, |rest|) == Resume(fs, i, |fs|);
      }
    }
  }

  /** The scan of a string finds its instructions in order, each where it is
      recognised and without overlap, and every position it skips has no
      instruction starting at it. */
  lemma MatchesSpec(s: string)
    ensures InOrder(Recognise(s), 0, Matches(s))
    ensures Leftmost(Recognise(s), 0, Matches(s))
  {
    RecogniseAdvances(s);
    ScanInOrder(Recognise(s), 0);
    ScanNoneBetween(Recognise(s), 0);
    ScanNoneAfter(Recognise(s), 0);
  }

  /** The instructions of a string, in order. */
  function Tokens(s: string): (ts: seq<Token>)
    ensures |ts| == |Matches(s)|
  {
    var fs := Matches(s);
    seq(|fs|, k requires 0 <= k < |fs| => fs[k].token)
  }

  /** Every multiplication instruction of a string has operands of at most
      three digits. */
  predicate Bounded(ts: seq<Token>)
  {
    forall k :: 0 <= k < |ts| && ts[k].MulToken? ==> ts[k].x <= 999 && ts[k].y <= 999
  }

  lemma TokensBounded(s: string)
    ensures Bounded(Tokens(s))
  {
    MatchesSpec(s);
  }

  // ---------------------------------------------------------------------------
  // Enabling and collecting
  // ---------------------------------------------------------------------------

  /** Whether multiplication is enabled after the first `n` instructions: it
      starts enabled, `do()` enables and `don't()` disables it. */
  function FlagAfter(ts: seq<Token>, n: nat): bool
    requires n <= |ts|
    decreases n
  {
    if n == 0 then true
    else match ts[n - 1]
      case Do => true
      case Dont => false
      case MulToken(_, _) => FlagAfter(ts, n - 1)
  }

  /** The multiplications among the first `n` instructions that come while
      multiplication is enabled. */
  function Kept(ts: seq<Token>, n: nat): seq<Multiplication>
    requires n <= |ts|
    decreases n
  {
    if n == 0 then []
    else match ts[n - 1]
      case MulToken(x, y) =>
        Kept(ts, n - 1) + (if FlagAfter(ts, n - 1) then [Multiplication(x, y)] else [])
      case _ => Kept(ts, n - 1)
  }

  /** All multiplications among the first `n` instructions. */
  function MulsUpTo(ts: seq<Token>, n: nat): seq<Multiplication>
    requires n <= |ts|
    decreases n
  {
    if n == 0 then []
    else match ts[n - 1]
      case MulToken(x, y) => MulsUpTo(ts, n - 1) + [Multiplication(x, y)]
      case _ => MulsUpTo(ts, n - 1)
  }

  /** Multiplication is disabled after the first `n` instructions exactly when
      some `don't()` among them is followed by no `do()`. */
  lemma {:induction false} FlagMeaning(ts: seq<Token>, n: nat)
    requires n <= |ts|
    ensures !FlagAfter(ts, n) <==>
      exists j :: 0 <= j < n && ts[j] == Dont && forall l :: j < l < n ==> ts[l] != Do
    decreases n
  {
    if n > 0 {
      FlagMeaning(ts, n - 1);
      if ts[n - 1].MulToken? {
        if exists j :: 0 <= j < n && ts[j] == Dont && forall l :: j < l < n ==> ts[l] != Do {
          var j :| 0 <= j < n && ts[j] == Dont && forall l :: j < l < n ==> ts[l] != Do;
          assert j < n - 1;
        }
      }
    }
  }

  /** What is kept is a subsequence of all multiplications: `f` gives, in
      increasing order, the place each kept one has among them. */
  lemma {:induction false} KeptSubsequence(ts: seq<Token>, n: nat) returns (f: seq<nat>)
    requires n <= |ts|
    ensures |f| == |Kept(ts, n)|
    ensures forall k :: 0 <= k < |f| ==>
      f[k] < |MulsUpTo(ts, n)| && Kept(ts, n)[k] == MulsUpTo(ts, n)[f[k]]
    ensures forall k :: 0 <= k < |f| - 1 ==> f[k] < f[k + 1]
    decreases n
  {
    if n == 0 {
      f := [];
    } else {
      var f' := KeptSubsequence(ts, n - 1);
      match ts[n - 1]
      case MulToken(x, y) =>
        var muls := MulsUpTo(ts, n - 1);
        assert MulsUpTo(ts, n) == muls + [Multiplication(x, y)];
        if FlagAfter(ts, n - 1) {
          f := f' + [|muls|];
          assert Kept(ts, n) == Kept(ts, n - 1) + [Multiplication(x, y)];
        } else {
          f := f';
        }
      case Do =>
        f := f';
      case Dont =>
        f := f';
    }
  }

  /** Without `don't()`, every multiplication is kept. */
  lemma {:induction false} NoDontKeepsAll(ts: seq<Token>, n: nat)
    requires n <= |ts|
    requires forall j :: 0 <= j < n ==> ts[j] != Dont
    ensures FlagAfter(ts, n)
    ensures Kept(ts, n) == MulsUpTo(ts, n)
    decreases n
  {
    if n > 0 {
      NoDontKeepsAll(ts, n - 1);
    }
  }

  /** After a `don't()` that no `do()` follows, nothing more is kept. */
  lemma {:induction false} DontSilences(ts: seq<Token>, j: nat, n: nat)
    requires j < n <= |ts|
    requires ts[j] == Dont
    requires forall l :: j < l < n ==> ts[l] != Do
    ensures !FlagAfter(ts, n)
    ensures Kept(ts, n) == Kept(ts, j + 1)
    decreases n
  {
    if n > j + 1 {
      DontSilences(ts, j, n - 1);
    }
  }

  /** Every kept multiplication has operands between 0 and 999. */
  lemma {:induction false} KeptBounded(ts: seq<Token>, n: nat)
    requires n <= |ts|
    requires Bounded(ts)
    ensures forall k :: 0 <= k < |Kept(ts, n)| ==>
      0 <= Kept(ts, n)[k].x <= 999 && 0 <= Kept(ts, n)[k].y <= 999
    decreases n
  {
    if n > 0 {
      KeptBounded(ts, n - 1);
    }
  }

  /** Goes through the instructions in order, keeping the enabled flag, and
      collects each multiplication met while it is set. */
  method ParseMultiplications(s: string) returns (vec: seq<Multiplication>)
    ensures var ts := Tokens(s); vec == Kept(ts, |ts|)
    ensures forall k :: 0 <= k < |vec| ==> 0 <= vec[k].x <= 999 && 0 <= vec[k].y <= 999
  {
    var found := Matches(s);
    var ts := Tokens(s);
    vec := [];
    var enableMul := true;
    var i := 0;
    while i < |found|
      invariant 0 <= i <= |found|
      invariant enableMul == FlagAfter(ts, i)
      invariant vec == Kept(ts, i)
    {
      assert ts[i] == found[i].token;
      match found[i].token {
        case Do =>
          enableMul := true;
        case Dont =>
          enableMul := false;
        case MulToken(x, y) =>
          if enableMul {
            vec := vec + [Multiplication(x, y)];
          }
      }
      i := i + 1;
    }
    TokensBounded(s);
    KeptBounded(ts, |ts|);
  }

  /** The product of two operands of at most three digits is at most
      999 * 999, well inside a 32-bit signed integer. */
  lemma MulFits(m: Multiplication)
    requires 0 <= m.x <= 999 && 0 <= m.y <= 999
    ensures 0 <= Mul(m) <= 998001 < 0x8000_0000
  {
    assert m.x * m.y <= 999 * m.y <= 999 * 999;
  }
}
