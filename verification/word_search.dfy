/**
 The word-search puzzle: the grid read as rows, columns and diagonals, and a
 prefix-count pass that counts how often a word can be spelled along one of
 those lines, forwards and backwards.
 */
module WordSearch {

  type Grid = seq<seq<char>>

  /** Every row is at least as long as the first one, so every column index
      of the first row is valid in every row. */
  predicate WideAsFirst(g: Grid)
    requires |g| > 0
  {
    forall r :: 0 <= r < |g| ==> |g[0]| <= |g[r]|
  }

  /** All rows have the same length. */
  predicate Rectangular(g: Grid)
  {
    forall r :: 0 <= r < |g| ==> |g[r]| == |g[0]|
  }

  function Reverse<T>(s: seq<T>): (r: seq<T>)
    ensures |r| == |s|
  {
    seq(|s|, i requires 0 <= i < |s| => s[|s| - 1 - i])
  }

  /** Reversing twice gives the sequence back. */
  lemma ReverseReverse<T>(s: seq<T>)
    ensures Reverse(Reverse(s)) == s
  {
  }

  // ---------------------------------------------------------------------------
  // Rows and columns
  // ---------------------------------------------------------------------------

  /** The rows as strings, top to bottom. */
  function GetRows(g: Grid): (rows: seq<string>)
    ensures |rows| == |g|
    ensures forall r :: 0 <= r < |g| ==> rows[r] == g[r]
  {
    g
  }

  /** Column `c` of the first `n` rows, top to bottom, skipping the rows too
      short to have a cell in that column. */
  function ColumnUpTo(g: Grid, c: nat, n: nat): seq<char>
    requires n <= |g|
    decreases n
  {
    if n == 0 then []
    else ColumnUpTo(g, c, n - 1) + (if c < |g[n - 1]| then [g[n - 1][c]] else [])
  }

  /** Column `c` of the whole grid. */
  function Column(g: Grid, c: nat): seq<char>
  {
    ColumnUpTo(g, c, |g|)
  }

  /** The transposed grid: one row per column of the first row. */
  function Transpose(g: Grid): (t: Grid)
    requires |g| > 0
    ensures |t| == |g[0]|
  {
    seq(|g[0]|, c requires 0 <= c < |g[0]| => Column(g, c))
  }

  /** The indices of the first `n` rows long enough to reach column `c`. */
  function LongRows(g: Grid, c: nat, n: nat): seq<nat>
    requires n <= |g|
    decreases n
  {
    if n == 0 then []
    else LongRows(g, c, n - 1) + (if c < |g[n - 1]| then [n - 1] else [])
  }

  /** The long-row indices of the first `n` rows are increasing, below `n`,
      and name exactly the rows that reach column `c`. */
  lemma {:induction false} LongRowsSpec(g: Grid, c: nat, n: nat)
    requires n <= |g|
    ensures forall k :: 0 <= k < |LongRows(g, c, n)| ==> LongRows(g, c, n)[k] < n
    ensures forall k, l :: 0 <= k < l < |LongRows(g, c, n)| ==> LongRows(g, c, n)[k] < LongRows(g, c, n)[l]
    ensures forall r :: 0 <= r < n ==> (r in LongRows(g, c, n) <==> c < |g[r]|)
    decreases n
  {
    if n > 0 {
      LongRowsSpec(g, c, n - 1);
    }
  }

  /** Column `c` of the first `n` rows has one cell per long row, namely
      `g[r][c]` for the `k`-th long row `r`. */
  lemma {:induction false} ColumnUpToCells(g: Grid, c: nat, n: nat)
    requires n <= |g|
    ensures |ColumnUpTo(g, c, n)| == |LongRows(g, c, n)|
    ensures forall k :: 0 <= k < |LongRows(g, c, n)| ==>
      var r := LongRows(g, c, n)[k]; r < |g| && c < |g[r]| && ColumnUpTo(g, c, n)[k] == g[r][c]
    decreases n
  {
    if n > 0 {
      ColumnUpToCells(g, c, n - 1);
    }
  }

  /** Column `c` holds `g[r][c]` for exactly the rows `r` long enough to reach
      column `c`, in increasing row order; shorter rows are skipped. */
  lemma ColumnSpec(g: Grid, c: nat)
    ensures var col := Column(g, c); var rs := LongRows(g, c, |g|);
      && |col| == |rs|
      && (forall k :: 0 <= k < |rs| ==> rs[k] < |g| && c < |g[rs[k]]| && col[k] == g[rs[k]][c])
      && (forall k, l :: 0 <= k < l < |rs| ==> rs[k] < rs[l])
      && (forall r :: 0 <= r < |g| ==> (r in rs <==> c < |g[r]|))
  {
    LongRowsSpec(g, c, |g|);
    ColumnUpToCells(g, c, |g|);
  }

  /** When every row reaches column `c`, the column has one cell per row. */
  lemma ColumnFull(g: Grid, c: nat)
    requires forall r :: 0 <= r < |g| ==> c < |g[r]|
    ensures |Column(g, c)| == |g|
    ensures forall r :: 0 <= r < |g| ==> Column(g, c)[r] == g[r][c]
  {
    ColumnUpToCells(g, c, |g|);
    LongRowsFull(g, c, |g|);
  }

  lemma {:induction false} LongRowsFull(g: Grid, c: nat, n: nat)
    requires n <= |g|
    requires forall r :: 0 <= r < n ==> c < |g[r]|
    ensures LongRows(g, c, n) == seq(n, r => r)
    decreases n
  {
    if n > 0 {
      LongRowsFull(g, c, n - 1);
    }
  }

  /** On a grid whose rows all reach the width of the first, transposing swaps
      the dimensions and reads `t[c][r] == g[r][c]`. */
  lemma TransposeSpec(g: Grid)
    requires |g| > 0
    requires WideAsFirst(g)
    ensures var t := Transpose(g);
      && |t| == |g[0]|
      && (forall c :: 0 <= c < |t| ==> |t[c]| == |g|)
      && (forall c, r :: 0 <= c < |t| && 0 <= r < |g| ==> t[c][r] == g[r][c])
  {
    forall c | 0 <= c < |g[0]|
      ensures |Column(g, c)| == |g|
      ensures forall r :: 0 <= r < |g| ==> Column(g, c)[r] == g[r][c]
    {
      ColumnFull(g, c);
    }
  }

  /** Transposing a non-empty rectangular grid twice gives it back. */
  lemma TransposeTwice(g: Grid)
    requires |g| > 0 && |g[0]| > 0
    requires Rectangular(g)
    ensures Transpose(Transpose(g)) == g
  {
    TransposeSpec(g);
    var t := Transpose(g);
    assert Rectangular(t);
    TransposeSpec(t);
    var tt := Transpose(t);
    assert |tt| == |g|;
    forall r | 0 <= r < |g| ensures tt[r] == g[r] {
      assert |tt[r]| == |t| == |g[r]|;
      forall c | 0 <= c < |g[r]| ensures tt[r][c] == g[r][c] {
        assert tt[r][c] == t[c][r];
      }
    }
  }

  // ---------------------------------------------------------------------------
  // Rotation
  // ---------------------------------------------------------------------------

  /** The grid turned a quarter clockwise: row `c` of the result is column
      `c` read from the bottom row up. The first row fixes the column count,
      and every row must reach it. */
  function Rotate(g: Grid): (rot: Grid)
    requires |g| > 0
    requires WideAsFirst(g)
  {
    seq(|g[0]|, c requires 0 <= c < |g[0]| =>
      seq(|g|, k requires 0 <= k < |g| => g[|g| - 1 - k][c]))
  }

  /** On a rectangular grid, rotating is transposing the grid with its rows in
      reverse order. */
  lemma RotateIsTransposedReverse(g: Grid)
    requires |g| > 0
    requires Rectangular(g)
    ensures Rotate(g) == Transpose(Reverse(g))
  {
    var rg := Reverse(g);
    assert WideAsFirst(rg) by {
      forall r | 0 <= r < |rg| ensures |rg[0]| <= |rg[r]| {
        assert rg[r] == g[|g| - 1 - r];
      }
    }
    TransposeSpec(rg);
    var rot := Rotate(g);
    var t := Transpose(rg);
    forall c | 0 <= c < |g[0]| ensures rot[c] == t[c] {
      forall k | 0 <= k < |g| ensures rot[c][k] == t[c][k] {
        assert t[c][k] == rg[k][c];
      }
    }
  }

  /** A quarter turn of a rectangular grid is rectangular, with the
      dimensions swapped. */
  lemma RotateShape(g: Grid)
    requires |g| > 0
    requires Rectangular(g)
    ensures |Rotate(g)| == |g[0]|
    ensures forall c :: 0 <= c < |g[0]| ==> |Rotate(g)[c]| == |g|
    ensures Rectangular(Rotate(g))
  {
  }

  /** Four quarter turns of a non-empty rectangular grid give it back. */
  lemma RotateFour(g: Grid)
    requires |g| > 0 && |g[0]| > 0
    requires Rectangular(g)
    ensures
      var g1 := Rotate(g);
      var g2 := Rotate(g1);
      var g3 := Rotate(g2);
      Rotate(g3) == g
  {
    RotateShape(g);
    var g1 := Rotate(g);
    RotateShape(g1);
    var g2 := Rotate(g1);
    RotateShape(g2);
    var g3 := Rotate(g2);
    RotateShape(g3);
    var g4 := Rotate(g3);
    assert forall r, c :: 0 <= r < |g| && 0 <= c < |g[0]| ==> g2[r][c] == g[|g| - 1 - r][|g[0]| - 1 - c];
    forall r | 0 <= r < |g| ensures g4[r] == g[r] {
      assert |g4[r]| == |g[r]|;
      forall c | 0 <= c < |g[0]| ensures g4[r][c] == g[r][c] {
        assert g4[r][c] == g2[|g| - 1 - r][|g[0]| - 1 - c];
      }
    }
  }

  // ---------------------------------------------------------------------------
  // Diagonals
  // ---------------------------------------------------------------------------

  /** The number of cells on the down-right diagonal from `(r, c)`, with the
      column count taken from the first row. */
  function DiagonalLength(g: Grid, r: nat, c: nat): nat
    requires |g| > 0
  {
    if r < |g| && c < |g[0]| then
      if |g| - r < |g[0]| - c then |g| - r else |g[0]| - c
    else 0
  }

  /** Every cell of the diagonal from `(r, c)` exists in its row. */
  predicate DiagonalInside(g: Grid, r: nat, c: nat)
    requires |g| > 0
  {
    forall i :: r <= i < r + DiagonalLength(g, r, c) ==> c + (i - r) < |g[i]|
  }

  /** The down-right diagonal from `(r, c)`, stopping at the last row or at
      the width of the first row. */
  function Diagonal(g: Grid, r: nat, c: nat): seq<char>
    requires |g| > 0
    requires DiagonalInside(g, r, c)
    decreases |g| - r
  {
    if r < |g| && c < |g[0]| then
      [g[r][c]] + Diagonal(g, r + 1, c + 1)
    else []
  }

  /** The diagonal from `(r, c)` holds `g[r+k][c+k]` for every `k` below
      `min(rows - r, cols - c)`. */
  lemma {:induction false} DiagonalSpec(g: Grid, r: nat, c: nat)
    requires |g| > 0
    requires DiagonalInside(g, r, c)
    ensures |Diagonal(g, r, c)| == DiagonalLength(g, r, c)
    ensures forall k :: 0 <= k < DiagonalLength(g, r, c) ==> Diagonal(g, r, c)[k] == g[r + k][c + k]
    decreases |g| - r
  {
    if r < |g| && c < |g[0]| {
      DiagonalSpec(g, r + 1, c + 1);
      var d := Diagonal(g, r, c);
      var rest := Diagonal(g, r + 1, c + 1);
      assert d == [g[r][c]] + rest;
      assert DiagonalLength(g, r, c) == DiagonalLength(g, r + 1, c + 1) + 1;
      forall k | 0 < k < DiagonalLength(g, r, c) ensures d[k] == g[r + k][c + k] {
        assert d[k] == rest[k - 1];
      }
    }
  }

  /** A grid whose rows reach the first row's width has every diagonal inside. */
  lemma WideDiagonalsInside(g: Grid, r: nat, c: nat)
    requires |g| > 0
    requires WideAsFirst(g)
    ensures DiagonalInside(g, r, c)
  {
  }

  /** The number of diagonals starting in row 0 to the right of column 0. */
  function UpperStarts(g: Grid): nat
    requires |g| > 0
  {
    if |g[0]| == 0 then 0 else |g[0]| - 1
  }

  /** All down-right diagonals: first those starting in column 0, top to
      bottom, then those starting in row 0, left to right from column 1. */
  function GetDiagonals(g: Grid): (ds: seq<string>)
    requires |g| > 0
    requires WideAsFirst(g)
    ensures |ds| == |g| + UpperStarts(g)
  {
    seq(|g|, r requires 0 <= r < |g| => Diagonal(g, r, 0)) +
    seq(UpperStarts(g), k requires 0 <= k < UpperStarts(g) => Diagonal(g, 0, k + 1))
  }

  /** The diagonal that holds cell `(i, j)` in the order `GetDiagonals` lists
      them. */
  function DiagonalOf(g: Grid, i: nat, j: nat): nat
    requires |g| > 0
  {
    if j <= i then i - j else |g| + j - i - 1
  }

  /** There are `rows + cols - 1` diagonals (just `rows` for a grid with
      empty rows), and every cell `(i, j)` of the grid is on diagonal
      `DiagonalOf(i, j)` at position `min(i, j)`. */
  lemma GetDiagonalsSpec(g: Grid)
    requires |g| > 0
    requires WideAsFirst(g)
    ensures |GetDiagonals(g)| == if |g[0]| == 0 then |g| else |g| + |g[0]| - 1
    ensures forall i, j :: 0 <= i < |g| && 0 <= j < |g[0]| ==>
      var d := DiagonalOf(g, i, j);
      var k := if i < j then i else j;
      d < |GetDiagonals(g)| && k < |GetDiagonals(g)[d]| && GetDiagonals(g)[d][k] == g[i][j]
  {
    forall i, j | 0 <= i < |g| && 0 <= j < |g[0]|
      ensures var d := DiagonalOf(g, i, j); var k := if i < j then i else j;
        d < |GetDiagonals(g)| && k < |GetDiagonals(g)[d]| && GetDiagonals(g)[d][k] == g[i][j]
    {
      if j <= i {
        CellOnLowerDiagonal(g, i, j);
      } else {
        CellOnUpperDiagonal(g, i, j);
      }
    }
  }

  /** A cell on or below the main diagonal is on the diagonal starting in
      column 0 of row `i - j`, at position `j`. */
  lemma CellOnLowerDiagonal(g: Grid, i: nat, j: nat)
    requires |g| > 0
    requires WideAsFirst(g)
    requires j <= i < |g| && j < |g[0]|
    ensures i - j < |GetDiagonals(g)| && j < |GetDiagonals(g)[i - j]| && GetDiagonals(g)[i - j][j] == g[i][j]
  {
    var ds := GetDiagonals(g);
    DiagonalSpec(g, i - j, 0);
    assert ds[i - j] == Diagonal(g, i - j, 0);
  }

  /** A cell above the main diagonal is on the diagonal starting in row 0 of
      column `j - i`, at position `i`. */
  lemma CellOnUpperDiagonal(g: Grid, i: nat, j: nat)
    requires |g| > 0
    requires WideAsFirst(g)
    requires i < j < |g[0]| && i < |g|
    ensures |g| + j - i - 1 < |GetDiagonals(g)| && i < |GetDiagonals(g)[|g| + j - i - 1]|
    ensures GetDiagonals(g)[|g| + j - i - 1][i] == g[i][j]
  {
    var ds := GetDiagonals(g);
    DiagonalSpec(g, 0, j - i);
    assert ds[|g| + j - i - 1] == Diagonal(g, 0, j - i);
  }

  // ---------------------------------------------------------------------------
  // Directions
  // ---------------------------------------------------------------------------

  /** The lines searched: rows, then columns, then down-right diagonals. The
      grid is also rotated (which fails unless every row reaches the first
      row's width) but the rotation is not used. */
  function GetDirections(g: Grid): (dirs: seq<string>)
    requires |g| > 0
    requires WideAsFirst(g)
  {
    var _ := Rotate(g);
    GetRows(g) + GetRows(Transpose(g)) + GetDiagonals(g)
  }

  /** The directions are the `rows` rows, then the `cols` columns, then the
      diagonals; the anti-diagonals are not among them. */
  lemma GetDirectionsSpec(g: Grid)
    requires |g| > 0
    requires WideAsFirst(g)
    ensures var dirs := GetDirections(g);
      && |dirs| == |g| + |g[0]| + |GetDiagonals(g)|
      && (forall r :: 0 <= r < |g| ==> dirs[r] == g[r])
      && (forall c :: 0 <= c < |g[0]| ==> dirs[|g| + c] == Column(g, c))
      && (forall d :: 0 <= d < |GetDiagonals(g)| ==> dirs[|g| + |g[0]| + d] == GetDiagonals(g)[d])
  {
  }

  // ---------------------------------------------------------------------------
  // Counting matches along one line
  // ---------------------------------------------------------------------------

  /** Every character of `line` occurs in `w`; the counting pass fails on any
      other character. */
  predicate AllIn(line: string, w: string)
  {
    forall k :: 0 <= k < |line| ==> line[k] in w
  }

  /** Character to index of its last occurrence among the first `n`
      characters of `w` (a later insertion overwrites an earlier one). */
  function IndexUpTo(w: string, n: nat): (m: map<char, nat>)
    requires n <= |w|
    ensures forall ch :: ch in m <==> ch in w[..n]
    ensures forall ch :: ch in m ==> m[ch] < n && w[m[ch]] == ch
    decreases n
  {
    if n == 0 then map[]
    else
      assert w[..n] == w[..n - 1] + [w[n - 1]];
      IndexUpTo(w, n - 1)[w[n - 1] := n - 1]
  }

  /** Character to the prefix of `w` ending at its last occurrence among the
      first `n` characters. */
  function SubwordsUpTo(w: string, n: nat): (m: map<char, string>)
    requires n <= |w|
    ensures forall ch :: ch in m <==> ch in w[..n]
    decreases n
  {
    if n == 0 then map[]
    else
      assert w[..n] == w[..n - 1] + [w[n - 1]];
      SubwordsUpTo(w, n - 1)[w[n - 1] := w[..n]]
  }

  function CharToIndex(w: string): (m: map<char, nat>)
    ensures forall ch :: ch in m <==> ch in w
  {
    assert w[..|w|] == w;
    IndexUpTo(w, |w|)
  }

  function CharToSubword(w: string): (m: map<char, string>)
    ensures forall ch :: ch in m <==> ch in w
  {
    assert w[..|w|] == w;
    SubwordsUpTo(w, |w|)
  }

  /** A character among the first `n` other than the `n`-th is among the
      first `n - 1`. */
  lemma InShorterPrefix(w: string, n: nat, ch: char)
    requires 0 < n <= |w|
    requires ch in w[..n] && w[n - 1] != ch
    ensures ch in w[..n - 1]
  {
    var k :| 0 <= k < n && w[..n][k] == ch;
    assert w[..n - 1][k] == ch;
  }

  /** Among the first `n` characters, each character maps to the index of
      its last occurrence. */
  lemma {:induction false} IndexUpToLast(w: string, n: nat, ch: char)
    requires n <= |w|
    requires ch in w[..n]
    ensures IndexUpTo(w, n)[ch] < n
    ensures forall j :: IndexUpTo(w, n)[ch] < j < n ==> w[j] != ch
    decreases n
  {
    if w[n - 1] != ch {
      InShorterPrefix(w, n, ch);
      IndexUpToLast(w, n - 1, ch);
      assert IndexUpTo(w, n)[ch] == IndexUpTo(w, n - 1)[ch];
    }
  }

  /** Among the first `n` characters, each character maps to the prefix
      ending at the index the index map gives it. */
  lemma {:induction false} SubwordsUpToIndex(w: string, n: nat, ch: char)
    requires n <= |w|
    requires ch in w[..n]
    ensures IndexUpTo(w, n)[ch] < n
    ensures SubwordsUpTo(w, n)[ch] == w[..IndexUpTo(w, n)[ch] + 1]
    decreases n
  {
    if w[n - 1] != ch {
      InShorterPrefix(w, n, ch);
      SubwordsUpToIndex(w, n - 1, ch);
      assert IndexUpTo(w, n)[ch] == IndexUpTo(w, n - 1)[ch];
      assert SubwordsUpTo(w, n)[ch] == SubwordsUpTo(w, n - 1)[ch];
    }
  }

  /** Among the first `n` characters, each character maps to the index of
      its last occurrence, and to the prefix ending at that index. */
  lemma UpToSpec(w: string, n: nat, ch: char)
    requires n <= |w|
    requires ch in w[..n]
    ensures var i := IndexUpTo(w, n)[ch];
      && i < n && w[i] == ch
      && (forall j :: i < j < n ==> w[j] != ch)
      && SubwordsUpTo(w, n)[ch] == w[..i + 1]
  {
    IndexUpToLast(w, n, ch);
    SubwordsUpToIndex(w, n, ch);
  }

  /** The character maps of a word: `ch` goes to the last index `i` where it
      occurs, and to the prefix `w[..i+1]`. */
  lemma CharMapsSpec(w: string, ch: char)
    requires ch in w
    ensures var i := CharToIndex(w)[ch];
      && i < |w| && w[i] == ch
      && (forall j :: i < j < |w| ==> w[j] != ch)
      && CharToSubword(w)[ch] == w[..i + 1]
  {
    assert w[..|w|] == w;
    UpToSpec(w, |w|, ch);
  }

  /** What the two character maps of a word hold: `index` sends each letter
      of `w` to an index where it occurs, and `subword` sends it to the
      prefix of `w` ending at that index. */
  predicate Tables(w: string, index: map<char, nat>, subword: map<char, string>)
  {
    && (forall ch :: ch in index <==> ch in w)
    && (forall ch :: ch in subword <==> ch in w)
    && (forall ch :: ch in index ==>
          index[ch] < |w| && w[index[ch]] == ch && ch in subword && subword[ch] == w[..index[ch] + 1])
  }

  /** The maps built from a word are its tables. */
  lemma WordTables(w: string)
    ensures Tables(w, CharToIndex(w), CharToSubword(w))
  {
    forall ch | ch in w
      ensures CharToIndex(w)[ch] < |w| && w[CharToIndex(w)[ch]] == ch
      ensures CharToSubword(w)[ch] == w[..CharToIndex(w)[ch] + 1]
    {
      CharMapsSpec(w, ch);
    }
  }

  /** A word whose letters are pairwise different. */
  predicate DistinctLetters(w: string)
  {
    forall i, j :: 0 <= i < j < |w| ==> w[i] != w[j]
  }

  /** With distinct letters the tables are forced: letter `w[j]` maps to
      index `j` and to the prefix `w[..j+1]`. */
  lemma DistinctTables(w: string, index: map<char, nat>, subword: map<char, string>, j: nat)
    requires DistinctLetters(w)
    requires Tables(w, index, subword)
    requires j < |w|
    ensures index[w[j]] == j
    ensures subword[w[j]] == w[..j + 1]
  {
    var k := index[w[j]];
    assert w[k] == w[j];
  }

  /** The count stored under a prefix, zero when the prefix is absent. */
  function Get(counts: map<string, nat>, key: string): nat
  {
    if key in counts then counts[key] else 0
  }

  /** One step of the count: reading `ch`, mapped to index `i`, adds to the
      count of its prefix the count of the prefix of the letter before index
      `i`, or one when `i` is 0. A character missing from the maps, or a
      letter before index `i` missing from the prefix map, is a failure the
      caller must rule out. */
  function UpdateMatches(counts: map<string, nat>, index: map<char, nat>, subword: map<char, string>,
                         w: string, ch: char): map<string, nat>
    requires ch in index && ch in subword
    requires index[ch] > 0 ==> index[ch] - 1 < |w| && w[index[ch] - 1] in subword
  {
    var i := index[ch];
    var sub := subword[ch];
    if i == 0 then
      counts[sub := Get(counts, sub) + 1]
    else
      counts[sub := Get(counts, sub) + Get(counts, subword[w[i - 1]])]
  }

  /** Reading `ch`, whose table index is `i`, changes only the count of the
      prefix `w[..i+1]`: it grows by one when `i` is 0, and otherwise by the
      count of the prefix the table gives for the letter `w[i-1]`. */
  lemma UpdateMatchesSpec(counts: map<string, nat>, index: map<char, nat>, subword: map<char, string>,
                          w: string, ch: char)
    requires Tables(w, index, subword)
    requires ch in w
    ensures var r := UpdateMatches(counts, index, subword, w, ch); var i := index[ch];
      && (forall key :: key in counts ==> key in r)
      && (forall key :: key != w[..i + 1] ==> Get(r, key) == Get(counts, key))
      && Get(r, w[..i + 1]) == Get(counts, w[..i + 1]) +
        (if i == 0 then 1 else Get(counts, w[..index[w[i - 1]] + 1]))
  {
  }

  /** The counts after reading the first `n` characters of `line`. */
  function CountsUpTo(line: string, index: map<char, nat>, subword: map<char, string>, w: string, n: nat)
    : map<string, nat>
    requires Tables(w, index, subword)
    requires AllIn(line, w)
    requires n <= |line|
    decreases n
  {
    if n == 0 then map[]
    else UpdateMatches(CountsUpTo(line, index, subword, w, n - 1), index, subword, w, line[n - 1])
  }

  /** The number of ways found to spell `w` reading `line` left to right:
      the count stored under the whole word. */
  function ForwardCount(line: string, index: map<char, nat>, subword: map<char, string>, w: string): nat
    requires Tables(w, index, subword)
    requires AllIn(line, w)
  {
    Get(CountsUpTo(line, index, subword, w, |line|), w)
  }

  /** Reversing keeps every character of the line. */
  lemma ReverseAllIn(line: string, w: string)
    requires AllIn(line, w)
    ensures AllIn(Reverse(line), w)
  {
    forall k | 0 <= k < |line| ensures Reverse(line)[k] in w {
      assert Reverse(line)[k] == line[|line| - 1 - k];
    }
  }

  /** The count along a line: the word's maps are built once, then the line
      is read forwards and backwards with fresh counts each time. */
  function MatchesInDirection(line: string, w: string): nat
    requires AllIn(line, w)
  {
    WordTables(w);
    ReverseAllIn(line, w);
    var index := CharToIndex(w);
    var subword := CharToSubword(w);
    ForwardCount(line, index, subword, w) + ForwardCount(Reverse(line), index, subword, w)
  }

  /** The number of ways to pick positions `i1 < ... < im` among the first
      `n` characters of `s` that spell `w[..m]`, counted by the last of those
      characters: the spellings that do not use it, plus, when it is the last
      letter of `w[..m]`, the spellings of `w[..m-1]` before it. */
  function EmbeddingsUpTo(s: string, n: nat, w: string, m: nat): nat
    requires n <= |s| && m <= |w|
    decreases n
  {
    if m == 0 then 1
    else if n == 0 then 0
    else
      EmbeddingsUpTo(s, n - 1, w, m)
      + (if s[n - 1] == w[m - 1] then EmbeddingsUpTo(s, n - 1, w, m - 1) else 0)
  }

  /** The number of ways to spell `w` as a subsequence of `s`. */
  function Embeddings(s: string, w: string): nat
  {
    EmbeddingsUpTo(s, |s|, w, |w|)
  }

  /** A one-letter word is spelled once per occurrence of its letter. */
  lemma {:induction false} EmbeddingsOneLetter(s: string, n: nat, c: char)
    requires n <= |s|
    ensures EmbeddingsUpTo(s, n, [c], 1) == |set k | 0 <= k < n && s[k] == c|
    decreases n
  {
    if n > 0 {
      EmbeddingsOneLetter(s, n - 1, c);
      var before := set k | 0 <= k < n - 1 && s[k] == c;
      var after := set k | 0 <= k < n && s[k] == c;
      if s[n - 1] == c {
        assert after == before + {n - 1};
      } else {
        assert after == before;
      }
    }
  }

  /** A word longer than the text cannot be spelled in it. */
  lemma {:induction false} EmbeddingsTooLong(s: string, n: nat, w: string, m: nat)
    requires n <= |s| && m <= |w|
    requires n < m
    ensures EmbeddingsUpTo(s, n, w, m) == 0
    decreases n
  {
    if n > 0 {
      EmbeddingsTooLong(s, n - 1, w, m);
      EmbeddingsTooLong(s, n - 1, w, m - 1);
    }
  }

  /** For a word with distinct letters, reading letter `w[i]` adds to the
      count of the prefix `w[..i+1]` the count of `w[..i]` (one for `i == 0`)
      and leaves every other prefix's count alone. */
  lemma UpdateMatchesDistinct(counts: map<string, nat>, index: map<char, nat>, subword: map<char, string>,
                              w: string, i: nat, j: nat)
    requires DistinctLetters(w)
    requires Tables(w, index, subword)
    requires i < |w| && 0 < j <= |w|
    ensures Get(UpdateMatches(counts, index, subword, w, w[i]), w[..j]) ==
      Get(counts, w[..j]) + (if j == i + 1 then (if i == 0 then 1 else Get(counts, w[..i])) else 0)
  {
    DistinctTables(w, index, subword, i);
    if i > 0 {
      DistinctTables(w, index, subword, i - 1);
    }
    if j != i + 1 {
      assert |w[..j]| != |w[..i + 1]|;
    }
  }

  /** After reading the first `n` characters, the count under the prefix
      `w[..j]` is its number of subsequence spellings. */
  predicate Counted(line: string, index: map<char, nat>, subword: map<char, string>, w: string, n: nat, j: nat)
    requires Tables(w, index, subword)
    requires AllIn(line, w)
    requires n <= |line| && j <= |w|
  {
    Get(CountsUpTo(line, index, subword, w, n), w[..j]) == EmbeddingsUpTo(line, n, w, j)
  }

  /** The number of spellings of `w[..j]` in the first `n` characters, when
      the `n`-th character is not the last letter of `w[..j]`. */
  lemma EmbeddingsSkip(s: string, n: nat, w: string, j: nat)
    requires 0 < n <= |s| && 0 < j <= |w|
    requires s[n - 1] != w[j - 1]
    ensures EmbeddingsUpTo(s, n, w, j) == EmbeddingsUpTo(s, n - 1, w, j)
  {
  }

  /** The number of spellings of `w[..j]` in the first `n` characters, when
      the `n`-th character is the last letter of `w[..j]`. */
  lemma EmbeddingsTake(s: string, n: nat, w: string, j: nat)
    requires 0 < n <= |s| && 0 < j <= |w|
    requires s[n - 1] == w[j - 1]
    ensures EmbeddingsUpTo(s, n, w, j) == EmbeddingsUpTo(s, n - 1, w, j) + EmbeddingsUpTo(s, n - 1, w, j - 1)
  {
  }

  /** Reading the `n`-th character, which is letter `w[i]`, keeps the count
      of prefix `w[..j]` equal to its number of spellings, given that the
      counts it reads were. */
  lemma StepEmbeddings(line: string, index: map<char, nat>, subword: map<char, string>,
                       w: string, n: nat, i: nat, j: nat)
    requires DistinctLetters(w)
    requires Tables(w, index, subword)
    requires AllIn(line, w)
    requires 0 < n <= |line|
    requires i < |w| && w[i] == line[n - 1]
    requires 0 < j <= |w|
    requires Counted(line, index, subword, w, n - 1, j)
    requires i > 0 ==> Counted(line, index, subword, w, n - 1, i)
    ensures Counted(line, index, subword, w, n, j)
  {
    var before := CountsUpTo(line, index, subword, w, n - 1);
    var after := CountsUpTo(line, index, subword, w, n);
    assert after == UpdateMatches(before, index, subword, w, w[i]);
    UpdateMatchesDistinct(before, index, subword, w, i, j);
    if j == i + 1 {
      EmbeddingsTake(line, n, w, j);
    } else {
      assert w[j - 1] != w[i];
      EmbeddingsSkip(line, n, w, j);
    }
  }

  /** A letter of `w` occurs in `w` at some index. */
  lemma LetterIndex(w: string, c: char) returns (i: nat)
    requires c in w
    ensures i < |w| && w[i] == c
  {
    i :| 0 <= i < |w| && w[i] == c;
  }

  /** For a word with distinct letters, after reading `n` characters the
      count under the prefix `w[..j]` is the number of ways to spell that
      prefix as a subsequence of what has been read. */
  lemma {:induction false} CountsUpToEmbeddings(line: string, index: map<char, nat>, subword: map<char, string>,
                                                w: string, n: nat, j: nat)
    requires DistinctLetters(w)
    requires Tables(w, index, subword)
    requires AllIn(line, w)
    requires n <= |line|
    requires 0 < j <= |w|
    ensures Counted(line, index, subword, w, n, j)
    decreases n
  {
    if n > 0 {
      var i := LetterIndex(w, line[n - 1]);
      CountsUpToEmbeddings(line, index, subword, w, n - 1, j);
      if i > 0 {
        CountsUpToEmbeddings(line, index, subword, w, n - 1, i);
      }
      StepEmbeddings(line, index, subword, w, n, i, j);
    }
  }

  /** For a non-empty word with distinct letters, the forward count is the
      number of subsequence spellings of the word in the line, not the number
      of contiguous occurrences. */
  lemma ForwardCountEmbeddings(line: string, index: map<char, nat>, subword: map<char, string>, w: string)
    requires |w| > 0 && DistinctLetters(w)
    requires Tables(w, index, subword)
    requires AllIn(line, w)
    ensures ForwardCount(line, index, subword, w) == Embeddings(line, w)
  {
    CountsUpToEmbeddings(line, index, subword, w, |line|, |w|);
    assert Counted(line, index, subword, w, |line|, |w|);
    assert w[..|w|] == w;
  }

  /** For a non-empty word with distinct letters, the count along a line is
      the number of subsequence spellings forwards plus backwards. */
  lemma MatchesInDirectionEmbeddings(line: string, w: string)
    requires |w| > 0 && DistinctLetters(w)
    requires AllIn(line, w)
    ensures MatchesInDirection(line, w) == Embeddings(line, w) + Embeddings(Reverse(line), w)
  {
    WordTables(w);
    ReverseAllIn(line, w);
    ForwardCountEmbeddings(line, CharToIndex(w), CharToSubword(w), w);
    ForwardCountEmbeddings(Reverse(line), CharToIndex(w), CharToSubword(w), w);
  }

  // ---------------------------------------------------------------------------
  // Counting over the grid
  // ---------------------------------------------------------------------------

  /** Every cell of the grid holds a letter of `w`. */
  predicate GridIn(g: Grid, w: string)
  {
    forall r, k :: 0 <= r < |g| && 0 <= k < |g[r]| ==> g[r][k] in w
  }

  /** Every line in `lines` is made of letters of `w`. */
  predicate LinesIn(lines: seq<string>, w: string)
  {
    forall d :: 0 <= d < |lines| ==> AllIn(lines[d], w)
  }

  /** The sum of a sequence of counts. */
  function Sum(xs: seq<nat>): nat
  {
    if |xs| == 0 then 0 else Sum(xs[..|xs| - 1]) + xs[|xs| - 1]
  }

  /** Summing a concatenation is adding the two sums. */
  lemma {:induction false} SumAppend(a: seq<nat>, b: seq<nat>)
    ensures Sum(a + b) == Sum(a) + Sum(b)
    decreases |b|
  {
    if |b| > 0 {
      assert (a + b)[..|a + b| - 1] == a + b[..|b| - 1];
      SumAppend(a, b[..|b| - 1]);
    } else {
      assert a + b == a;
    }
  }

  /** The count along each line, in order. */
  function LineCounts(lines: seq<string>, w: string): (counts: seq<nat>)
    requires LinesIn(lines, w)
    ensures |counts| == |lines|
  {
    seq(|lines|, d requires 0 <= d < |lines| => MatchesInDirection(lines[d], w))
  }

  /** Lines made of letters of `w`, concatenated, are still made of them. */
  lemma LinesInAppend(a: seq<string>, b: seq<string>, w: string)
    requires LinesIn(a, w) && LinesIn(b, w)
    ensures LinesIn(a + b, w)
  {
    forall d | 0 <= d < |a + b| ensures AllIn((a + b)[d], w) {
      if d < |a| {
        assert (a + b)[d] == a[d];
      } else {
        assert (a + b)[d] == b[d - |a|];
      }
    }
  }

  /** The rows of a grid of letters of `w` are made of letters of `w`. */
  lemma RowsIn(g: Grid, w: string)
    requires GridIn(g, w)
    ensures LinesIn(GetRows(g), w)
  {
  }

  /** A column of a grid of letters of `w` is made of letters of `w`. */
  lemma ColumnIn(g: Grid, w: string, c: nat)
    requires GridIn(g, w)
    ensures AllIn(Column(g, c), w)
  {
    ColumnUpToCells(g, c, |g|);
  }

  /** The columns of a grid of letters of `w` are made of letters of `w`. */
  lemma ColumnsIn(g: Grid, w: string)
    requires |g| > 0
    requires GridIn(g, w)
    ensures LinesIn(GetRows(Transpose(g)), w)
  {
    var t := Transpose(g);
    forall c | 0 <= c < |t| ensures AllIn(GetRows(t)[c], w) {
      ColumnIn(g, w, c);
    }
  }

  /** A diagonal of a grid of letters of `w` is made of letters of `w`. */
  lemma DiagonalIn(g: Grid, w: string, r: nat, c: nat)
    requires |g| > 0
    requires WideAsFirst(g)
    requires GridIn(g, w)
    ensures AllIn(Diagonal(g, r, c), w)
  {
    WideDiagonalsInside(g, r, c);
    DiagonalSpec(g, r, c);
  }

  /** The diagonals of a grid of letters of `w` are made of letters of `w`. */
  lemma DiagonalsIn(g: Grid, w: string)
    requires |g| > 0
    requires WideAsFirst(g)
    requires GridIn(g, w)
    ensures LinesIn(GetDiagonals(g), w)
  {
    var ds := GetDiagonals(g);
    forall e | 0 <= e < |ds| ensures AllIn(ds[e], w) {
      if e < |g| {
        assert ds[e] == Diagonal(g, e, 0);
        DiagonalIn(g, w, e, 0);
      } else {
        assert ds[e] == Diagonal(g, 0, e - |g| + 1);
        DiagonalIn(g, w, 0, e - |g| + 1);
      }
    }
  }

  /** The rows, columns and diagonals of a grid of letters of `w` are made of
      letters of `w`. */
  lemma DirectionsIn(g: Grid, w: string)
    requires |g| > 0
    requires WideAsFirst(g)
    requires GridIn(g, w)
    ensures LinesIn(GetDirections(g), w)
  {
    RowsIn(g, w);
    ColumnsIn(g, w);
    DiagonalsIn(g, w);
    LinesInAppend(GetRows(g), GetRows(Transpose(g)), w);
    LinesInAppend(GetRows(g) + GetRows(Transpose(g)), GetDiagonals(g), w);
  }

  /** The number of times `w` is counted in the grid: the sum of the counts
      along every row, column and down-right diagonal. Any cell holding a
      letter outside `w` is a failure the caller must rule out. */
  function GetNMatches(g: Grid, w: string): nat
    requires |g| > 0
    requires WideAsFirst(g)
    requires GridIn(g, w)
  {
    DirectionsIn(g, w);
    Sum(LineCounts(GetDirections(g), w))
  }

  /** The grid count is the row counts plus the column counts plus the
      diagonal counts. */
  lemma GetNMatchesSplit(g: Grid, w: string)
    requires |g| > 0
    requires WideAsFirst(g)
    requires GridIn(g, w)
    ensures var rows := GetRows(g); var cols := GetRows(Transpose(g)); var diags := GetDiagonals(g);
      && LinesIn(rows, w) && LinesIn(cols, w) && LinesIn(diags, w)
      && GetNMatches(g, w) == Sum(LineCounts(rows, w)) + Sum(LineCounts(cols, w)) + Sum(LineCounts(diags, w))
  {
    var rows := GetRows(g);
    var cols := GetRows(Transpose(g));
    var diags := GetDiagonals(g);
    RowsIn(g, w);
    ColumnsIn(g, w);
    DiagonalsIn(g, w);
    assert GetDirections(g) == rows + cols + diags;
    LineCountsAppend(rows, cols, w);
    LineCountsAppend(rows + cols, diags, w);
    SumAppend(LineCounts(rows, w), LineCounts(cols, w));
    SumAppend(LineCounts(rows, w) + LineCounts(cols, w), LineCounts(diags, w));
  }

  /** The counts of two lists of lines, one after the other, are the counts
      of the two lists joined. */
  lemma LineCountsAppend(a: seq<string>, b: seq<string>, w: string)
    requires LinesIn(a, w) && LinesIn(b, w)
    ensures LinesIn(a + b, w)
    ensures LineCounts(a + b, w) == LineCounts(a, w) + LineCounts(b, w)
  {
    LinesInAppend(a, b, w);
    var all := LineCounts(a + b, w);
    var parts := LineCounts(a, w) + LineCounts(b, w);
    forall d | 0 <= d < |all| ensures all[d] == parts[d] {
      if d < |a| {
        assert (a + b)[d] == a[d];
      } else {
        assert (a + b)[d] == b[d - |a|];
      }
    }
  }
}
