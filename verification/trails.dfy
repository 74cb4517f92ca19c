/**
 Topographic trails: a map of heights becomes a directed graph whose edges
 climb by exactly one between neighbouring cells, and each trail head (a
 height-0 cell) is scored by the number of height-9 cells it can reach.

 Nodes are numbered in row-major order, as they are added one cell at a time,
 row by row. Reachability is defined by paths and computed level by level.
 */
module Trails {

  /** The height of a trail end. */
  const MaxHeight: int := 9

  /** A rectangular map of heights, one row per sequence. */
  type TopoMap = seq<seq<int>>

  function Cols(m: TopoMap): nat
  {
    if |m| == 0 then 0 else |m[0]|
  }

  predicate Rectangular(m: TopoMap)
  {
    forall i :: 0 <= i < |m| ==> |m[i]| == Cols(m)
  }

  /** A position on the map: row `i`, column `j`. */
  datatype Cell = Cell(i: nat, j: nat)

  predicate InBounds(m: TopoMap, c: Cell)
  {
    c.i < |m| && c.j < Cols(m)
  }

  function Height(m: TopoMap, c: Cell): int
    requires Rectangular(m) && InBounds(m, c)
  {
    m[c.i][c.j]
  }

  // ---------------------------------------------------------------------------
  // Row-major node numbering
  // ---------------------------------------------------------------------------

  /** The node of a cell: cells are numbered row by row. */
  function GraphIndex(cols: nat, c: Cell): nat
  {
    c.i * cols + c.j
  }

  /** The cell of a node: its row is the quotient and its column the
      remainder of the division by the number of columns. */
  function MapIndex(cols: nat, node: nat): (c: Cell)
    requires cols > 0
    ensures c.j < cols
  {
    Cell(node / cols, node % cols)
  }

  lemma MulMono(a: nat, b: nat, c: nat)
    requires a <= b
    ensures a * c <= b * c
  {
    assert b * c == a * c + (b - a) * c;
  }

  /** Numbering then locating gives the cell back. */
  lemma MapIndexGraphIndex(cols: nat, c: Cell)
    requires c.j < cols
    ensures MapIndex(cols, GraphIndex(cols, c)) == c
  {
    var n := GraphIndex(cols, c);
    var q := n / cols;
    var r := n % cols;
    assert n == q * cols + r;
    assert (q - c.i) * cols == c.j - r;
    if q > c.i {
      MulMono(1, q - c.i, cols);
    } else if q < c.i {
      MulMono(1, c.i - q, cols);
    }
  }

  /** Locating then numbering gives the node back. */
  lemma GraphIndexMapIndex(cols: nat, node: nat)
    requires cols > 0
    ensures GraphIndex(cols, MapIndex(cols, node)) == node
  {
  }

  /** The cells of a map with `rows` rows are numbered `0 .. rows * cols - 1`. */
  lemma GraphIndexBelow(cols: nat, c: Cell, rows: nat)
    requires c.j < cols && c.i < rows
    ensures GraphIndex(cols, c) < rows * cols
  {
    MulMono(c.i + 1, rows, cols);
  }

  /** A cell in row `rows` or below is numbered `rows * cols` or more. */
  lemma GraphIndexAtLeast(cols: nat, c: Cell, rows: nat)
    requires rows <= c.i
    ensures rows * cols <= GraphIndex(cols, c)
  {
    MulMono(rows, c.i, cols);
  }

  /** Each node below `rows * cols` is the number of a cell of the map. */
  lemma MapIndexInBounds(cols: nat, node: nat, rows: nat)
    requires cols > 0 && node < rows * cols
    ensures MapIndex(cols, node).i < rows
  {
    var c := MapIndex(cols, node);
    if c.i >= rows {
      GraphIndexAtLeast(cols, c, rows);
      GraphIndexMapIndex(cols, node);
    }
  }

  /** Numbering follows row-major order. */
  lemma GraphIndexOrder(cols: nat, c: Cell, d: Cell)
    requires c.j < cols && d.j < cols
    ensures GraphIndex(cols, c) < GraphIndex(cols, d) <==> c.i < d.i || (c.i == d.i && c.j < d.j)
  {
    if c.i < d.i {
      GraphIndexBelow(cols, c, d.i);
      GraphIndexAtLeast(cols, d, d.i);
    } else if d.i < c.i {
      GraphIndexBelow(cols, d, c.i);
      GraphIndexAtLeast(cols, c, c.i);
    }
  }

  // ---------------------------------------------------------------------------
  // Nodes
  // ---------------------------------------------------------------------------

  /** The first `n` pieces, one after the other. */
  function Concat<T>(xs: seq<seq<T>>, n: nat): seq<T>
    requires n <= |xs|
    decreases n
  {
    if n == 0 then [] else Concat(xs, n - 1) + xs[n - 1]
  }

  /** The heights of the first `r` rows laid out row after row, the order in
      which nodes are added, hold one entry per cell. */
  lemma {:induction false} NodesLength(m: TopoMap, r: nat)
    requires Rectangular(m) && r <= |m|
    ensures |Concat(m, r)| == r * Cols(m)
    decreases r
  {
    if r > 0 {
      NodesLength(m, r - 1);
      assert |m[r - 1]| == Cols(m);
      assert (r - 1) * Cols(m) + Cols(m) == r * Cols(m);
    }
  }

  /** The entry numbered for a cell among the first `r` rows is that cell's
      height. */
  lemma {:induction false} NodesSpec(m: TopoMap, r: nat, c: Cell)
    requires Rectangular(m) && r <= |m|
    requires InBounds(m, c) && c.i < r
    ensures GraphIndex(Cols(m), c) < |Concat(m, r)|
    ensures Concat(m, r)[GraphIndex(Cols(m), c)] == Height(m, c)
    decreases r
  {
    var cols := Cols(m);
    var prev := Concat(m, r - 1);
    NodesLength(m, r - 1);
    NodesLength(m, r);
    assert Concat(m, r) == prev + m[r - 1];
    if c.i < r - 1 {
      NodesSpec(m, r - 1, c);
    } else {
      assert GraphIndex(cols, c) == |prev| + c.j;
    }
  }

  // ---------------------------------------------------------------------------
  // Edges between cells
  // ---------------------------------------------------------------------------

  /** An edge between two cells, before the cells are numbered. */
  datatype Link = Link(from: Cell, to: Cell)

  /** The two cells are horizontal or vertical neighbours. */
  predicate Adjacent(a: Cell, b: Cell)
  {
    || (a.i == b.i && (a.j + 1 == b.j || b.j + 1 == a.j))
    || (a.j == b.j && (a.i + 1 == b.i || b.i + 1 == a.i))
  }

  /** A step of a trail: to a neighbouring cell exactly one unit higher. */
  predicate Step(m: TopoMap, a: Cell, b: Cell)
    requires Rectangular(m)
  {
    InBounds(m, a) && InBounds(m, b) && Adjacent(a, b) && Height(m, b) == Height(m, a) + 1
  }

  /** Cell `a` comes before cell `b` in row-major order. */
  predicate Before(a: Cell, b: Cell)
  {
    a.i < b.i || (a.i == b.i && a.j < b.j)
  }

  /** The end of a link that comes first in row-major order. */
  function Upper(l: Link): Cell
  {
    if Before(l.from, l.to) then l.from else l.to
  }

  /** The link between a cell and one neighbour, if their heights differ by
      exactly one; it points from the lower to the higher cell. */
  function NeighbourLinks(m: TopoMap, c: Cell, nb: Cell): seq<Link>
    requires Rectangular(m) && InBounds(m, c) && InBounds(m, nb)
  {
    var height := Height(m, c);
    var neighbourHeight := Height(m, nb);
    (if neighbourHeight == height + 1 then [Link(c, nb)] else [])
    + (if neighbourHeight == height - 1 then [Link(nb, c)] else [])
  }

  /** The links a cell contributes: with the cell below it, then with the
      cell to its right, when those exist. */
  function CellLinks(m: TopoMap, c: Cell): seq<Link>
    requires Rectangular(m) && InBounds(m, c)
  {
    (if c.i < |m| - 1 then NeighbourLinks(m, c, Cell(c.i + 1, c.j)) else [])
    + (if c.j < Cols(m) - 1 then NeighbourLinks(m, c, Cell(c.i, c.j + 1)) else [])
  }

  /** The links of row `i`, cell by cell from the left. */
  function RowLinks(m: TopoMap, i: nat): seq<Link>
    requires Rectangular(m) && i < |m|
  {
    var cells: seq<seq<Link>> := seq(Cols(m), j requires 0 <= j < Cols(m) => CellLinks(m, Cell(i, j)));
    Concat(cells, Cols(m))
  }

  /** The links of the whole map, row by row from the top. */
  function GridLinks(m: TopoMap): seq<Link>
    requires Rectangular(m)
  {
    var rows: seq<seq<Link>> := seq(|m|, i requires 0 <= i < |m| => RowLinks(m, i));
    Concat(rows, |m|)
  }

  predicate NoDuplicates<T(==)>(s: seq<T>)
  {
    forall k, l :: 0 <= k < l < |s| ==> s[k] != s[l]
  }

  lemma NoDuplicatesAppend<T>(a: seq<T>, b: seq<T>)
    requires NoDuplicates(a) && NoDuplicates(b)
    requires forall x :: x in a ==> x !in b
    ensures NoDuplicates(a + b)
  {
    var ab := a + b;
    forall k, l | 0 <= k < l < |ab| ensures ab[k] != ab[l] {
      if l < |a| {
        assert ab[k] == a[k] && ab[l] == a[l];
      } else if k < |a| {
        assert ab[k] == a[k] && ab[l] == b[l - |a|];
        assert a[k] in a;
      } else {
        assert ab[k] == b[k - |a|] && ab[l] == b[l - |a|];
      }
    }
  }

  /** Every element of a piece is in the concatenation. */
  lemma {:induction false} ConcatContains<T>(xs: seq<seq<T>>, n: nat, k: nat)
    requires k < n <= |xs|
    ensures forall x :: x in xs[k] ==> x in Concat(xs, n)
    decreases n
  {
    if k < n - 1 {
      ConcatContains(xs, n - 1, k);
    }
  }

  /** Every element of the concatenation comes from one of the pieces. */
  lemma {:induction false} ConcatMember<T>(xs: seq<seq<T>>, n: nat, x: T)
    requires n <= |xs|
    requires x in Concat(xs, n)
    ensures exists k :: 0 <= k < n && x in xs[k]
    decreases n
  {
    if x !in xs[n - 1] {
      ConcatMember(xs, n - 1, x);
    }
  }

  /** Pieces without duplicates whose elements are told apart by the piece
      they come from concatenate without duplicates. */
  lemma {:induction false} ConcatNoDuplicates<T>(xs: seq<seq<T>>, n: nat, key: T -> int)
    requires n <= |xs|
    requires forall k :: 0 <= k < |xs| ==> NoDuplicates(xs[k])
    requires forall k, x :: 0 <= k < |xs| && x in xs[k] ==> key(x) == k
    ensures NoDuplicates(Concat(xs, n))
    ensures forall x :: x in Concat(xs, n) ==> 0 <= key(x) < n
    decreases n
  {
    if n > 0 {
      ConcatNoDuplicates(xs, n - 1, key);
      NoDuplicatesAppend(Concat(xs, n - 1), xs[n - 1]);
    }
  }

  /** The link with one neighbour is a step whose upper end is the cell, and
      there is at most one. */
  lemma NeighbourLinksSpec(m: TopoMap, c: Cell, nb: Cell)
    requires Rectangular(m) && InBounds(m, c) && InBounds(m, nb)
    requires Adjacent(c, nb) && Before(c, nb)
    ensures |NeighbourLinks(m, c, nb)| <= 1
    ensures forall l :: l in NeighbourLinks(m, c, nb) ==>
      Step(m, l.from, l.to) && Upper(l) == c && (l.from == nb || l.to == nb)
    ensures forall l :: l in NeighbourLinks(m, c, nb) ==> l == Link(c, nb) || l == Link(nb, c)
  {
  }

  /** Every link a cell contributes is a step and has that cell as its upper
      end, and none is contributed twice. */
  lemma CellLinksSpec(m: TopoMap, c: Cell)
    requires Rectangular(m) && InBounds(m, c)
    ensures forall l :: l in CellLinks(m, c) ==> Step(m, l.from, l.to) && Upper(l) == c
    ensures NoDuplicates(CellLinks(m, c))
  {
    var down := Cell(c.i + 1, c.j);
    var right := Cell(c.i, c.j + 1);
    var a: seq<Link> := if c.i < |m| - 1 then NeighbourLinks(m, c, down) else [];
    var b: seq<Link> := if c.j < Cols(m) - 1 then NeighbourLinks(m, c, right) else [];
    if c.i < |m| - 1 {
      NeighbourLinksSpec(m, c, down);
    }
    if c.j < Cols(m) - 1 {
      NeighbourLinksSpec(m, c, right);
    }
    LinksApart(a, b, c, down, right);
    NoDuplicatesAppend(a, b);
  }

  /** Links between a cell and two different neighbours are different links. */
  lemma LinksApart(a: seq<Link>, b: seq<Link>, c: Cell, down: Cell, right: Cell)
    requires down != right && c != down && c != right
    requires forall l :: l in a ==> l == Link(c, down) || l == Link(down, c)
    requires forall l :: l in b ==> l == Link(c, right) || l == Link(right, c)
    ensures forall l :: l in a ==> l !in b
  {
  }

  /** The links of row `i` are steps with their upper end in that row, all
      different. */
  lemma RowLinksSpec(m: TopoMap, i: nat)
    requires Rectangular(m) && i < |m|
    ensures forall l :: l in RowLinks(m, i) ==> Step(m, l.from, l.to) && Upper(l).i == i
    ensures NoDuplicates(RowLinks(m, i))
  {
    var cells: seq<seq<Link>> := seq(Cols(m), j requires 0 <= j < Cols(m) => CellLinks(m, Cell(i, j)));
    forall j | 0 <= j < Cols(m)
      ensures NoDuplicates(cells[j])
      ensures forall l: Link :: l in cells[j] ==> Step(m, l.from, l.to) && Upper(l) == Cell(i, j)
    {
      CellLinksSpec(m, Cell(i, j));
    }
    ConcatNoDuplicates(cells, Cols(m), (l: Link) => Upper(l).j);
    forall l | l in RowLinks(m, i) ensures Step(m, l.from, l.to) && Upper(l).i == i {
      ConcatMember(cells, Cols(m), l);
    }
  }

  /** The links of the map are steps, all different. */
  lemma GridLinksSpec(m: TopoMap)
    requires Rectangular(m)
    ensures forall l :: l in GridLinks(m) ==> Step(m, l.from, l.to)
    ensures NoDuplicates(GridLinks(m))
  {
    var rows: seq<seq<Link>> := seq(|m|, i requires 0 <= i < |m| => RowLinks(m, i));
    forall i | 0 <= i < |m|
      ensures NoDuplicates(rows[i])
      ensures forall l: Link :: l in rows[i] ==> Step(m, l.from, l.to) && Upper(l).i == i
    {
      RowLinksSpec(m, i);
    }
    ConcatNoDuplicates(rows, |m|, (l: Link) => Upper(l).i);
    forall l | l in GridLinks(m) ensures Step(m, l.from, l.to) {
      ConcatMember(rows, |m|, l);
    }
  }

  /** The link of a step is among the links of its upper cell. */
  lemma StepInCellLinks(m: TopoMap, a: Cell, b: Cell)
    requires Rectangular(m) && Step(m, a, b)
    ensures Link(a, b) in CellLinks(m, if Before(a, b) then a else b)
  {
    if Before(a, b) {
      assert Link(a, b) in NeighbourLinks(m, a, b);
      if b == Cell(a.i + 1, a.j) {
        assert CellLinks(m, a)[0] == Link(a, b);
      } else {
        assert b == Cell(a.i, a.j + 1);
      }
    } else {
      assert Link(a, b) in NeighbourLinks(m, b, a);
      if a == Cell(b.i + 1, b.j) {
        assert CellLinks(m, b)[0] == Link(a, b);
      } else {
        assert a == Cell(b.i, b.j + 1);
      }
    }
  }

  /** Every step of a trail has its link, contributed by whichever of the
      two cells is above or left of the other. */
  lemma GridLinksComplete(m: TopoMap, a: Cell, b: Cell)
    requires Rectangular(m) && Step(m, a, b)
    ensures Link(a, b) in GridLinks(m)
  {
    var u := if Before(a, b) then a else b;
    StepInCellLinks(m, a, b);
    var cells: seq<seq<Link>> := seq(Cols(m), j requires 0 <= j < Cols(m) => CellLinks(m, Cell(u.i, j)));
    ConcatContains(cells, Cols(m), u.j);
    var rows: seq<seq<Link>> := seq(|m|, i requires 0 <= i < |m| => RowLinks(m, i));
    ConcatContains(rows, |m|, u.i);
  }

  // ---------------------------------------------------------------------------
  // The numbered graph
  // ---------------------------------------------------------------------------

  /** A directed edge between two nodes. */
  datatype Edge = Edge(from: nat, to: nat)

  /** A graph: the height carried by each node, and the edges. */
  datatype Graph = Graph(heights: seq<int>, edges: seq<Edge>)

  /** The node of a cell of `m`. */
  function Id(m: TopoMap, c: Cell): nat
  {
    GraphIndex(Cols(m), c)
  }

  /** The trail graph of a map: one node per cell, added row by row and so
      numbered in row-major order, each carrying its cell's height; and an
      edge for every link, between the numbers of its cells. */
  function MapToGraph(m: TopoMap): Graph
    requires Rectangular(m)
  {
    var links := GridLinks(m);
    Graph(Concat(m, |m|), seq(|links|, k requires 0 <= k < |links| => Edge(Id(m, links[k].from), Id(m, links[k].to))))
  }

  /** There is one node per cell, and the node numbered for a cell carries
      the cell's height. */
  lemma MapToGraphNodes(m: TopoMap)
    requires Rectangular(m)
    ensures |MapToGraph(m).heights| == |m| * Cols(m)
    ensures forall c :: InBounds(m, c) ==> Id(m, c) < |m| * Cols(m) && MapToGraph(m).heights[Id(m, c)] == Height(m, c)
  {
    NodesLength(m, |m|);
    forall c | InBounds(m, c) ensures Id(m, c) < |m| * Cols(m) && MapToGraph(m).heights[Id(m, c)] == Height(m, c) {
      NodesSpec(m, |m|, c);
    }
  }

  /** The edge, read back through the cell numbering, is a step of a trail. */
  predicate StepEdge(m: TopoMap, e: Edge)
    requires Rectangular(m)
  {
    Cols(m) > 0 && Step(m, MapIndex(Cols(m), e.from), MapIndex(Cols(m), e.to))
  }

  /** Every edge goes from a cell to a neighbour exactly one unit higher. */
  lemma MapToGraphSound(m: TopoMap)
    requires Rectangular(m)
    ensures forall e :: e in MapToGraph(m).edges ==> StepEdge(m, e)
  {
    var links := GridLinks(m);
    GridLinksSpec(m);
    forall e | e in MapToGraph(m).edges ensures StepEdge(m, e) {
      var k :| 0 <= k < |links| && e == Edge(Id(m, links[k].from), Id(m, links[k].to));
      assert links[k] in links;
      MapIndexGraphIndex(Cols(m), links[k].from);
      MapIndexGraphIndex(Cols(m), links[k].to);
    }
  }

  /** Every step of a trail has its edge. */
  lemma MapToGraphComplete(m: TopoMap, a: Cell, b: Cell)
    requires Rectangular(m) && Step(m, a, b)
    ensures Edge(Id(m, a), Id(m, b)) in MapToGraph(m).edges
  {
    var links := GridLinks(m);
    GridLinksComplete(m, a, b);
    var k :| 0 <= k < |links| && links[k] == Link(a, b);
    assert MapToGraph(m).edges[k] == Edge(Id(m, a), Id(m, b));
  }

  /** No edge is added twice. */
  lemma MapToGraphNoDuplicates(m: TopoMap)
    requires Rectangular(m)
    ensures NoDuplicates(MapToGraph(m).edges)
  {
    var links := GridLinks(m);
    var edges := MapToGraph(m).edges;
    GridLinksSpec(m);
    forall k, l | 0 <= k < l < |edges| ensures edges[k] != edges[l] {
      assert links[k] in links && links[l] in links;
      MapIndexGraphIndex(Cols(m), links[k].from);
      MapIndexGraphIndex(Cols(m), links[k].to);
      MapIndexGraphIndex(Cols(m), links[l].from);
      MapIndexGraphIndex(Cols(m), links[l].to);
      assert links[k] != links[l];
    }
  }

  /** Every edge joins two nodes of the graph and climbs by exactly one: its
      end carries a height one greater than its start. */
  predicate Graded(g: Graph)
  {
    forall k :: 0 <= k < |g.edges| ==>
      && g.edges[k].from < |g.heights| && g.edges[k].to < |g.heights|
      && g.heights[g.edges[k].to] == g.heights[g.edges[k].from] + 1
  }

  /** The trail graph of a map is graded. */
  lemma MapToGraphGraded(m: TopoMap)
    requires Rectangular(m)
    ensures Graded(MapToGraph(m))
  {
    var g := MapToGraph(m);
    var links := GridLinks(m);
    GridLinksSpec(m);
    MapToGraphNodes(m);
    forall k | 0 <= k < |g.edges|
      ensures g.edges[k].from < |g.heights| && g.edges[k].to < |g.heights|
      ensures g.heights[g.edges[k].to] == g.heights[g.edges[k].from] + 1
    {
      assert links[k] in links;
    }
  }

  /** In a graded graph no two nodes are joined both ways. */
  lemma GradedOneWay(g: Graph, a: nat, b: nat)
    requires Graded(g)
    requires Edge(a, b) in g.edges
    ensures Edge(b, a) !in g.edges
  {
    var k :| 0 <= k < |g.edges| && g.edges[k] == Edge(a, b);
  }

  // ---------------------------------------------------------------------------
  // Paths and reachability
  // ---------------------------------------------------------------------------

  /** A sequence of nodes, each joined to the next by an edge. */
  predicate IsPath(g: Graph, p: seq<nat>)
  {
    && |p| >= 1
    && (forall k :: 0 <= k < |p| ==> p[k] < |g.heights|)
    && (forall k :: 0 <= k < |p| - 1 ==> Edge(p[k], p[k + 1]) in g.edges)
  }

  /** Along a path of a graded graph the height rises by one per edge. */
  lemma {:induction false} PathClimbs(g: Graph, p: seq<nat>, n: nat)
    requires Graded(g) && IsPath(g, p) && n < |p|
    ensures g.heights[p[n]] == g.heights[p[0]] + n
    decreases n
  {
    if n > 0 {
      PathClimbs(g, p, n - 1);
      assert Edge(p[n - 1], p[n]) in g.edges;
      var k :| 0 <= k < |g.edges| && g.edges[k] == Edge(p[n - 1], p[n]);
    }
  }

  /** A path of a graded graph never visits a node twice, so the graph has
      no cycles. */
  lemma PathSimple(g: Graph, p: seq<nat>)
    requires Graded(g) && IsPath(g, p)
    ensures NoDuplicates(p)
  {
    forall k, l | 0 <= k < l < |p| ensures p[k] != p[l] {
      PathClimbs(g, p, k);
      PathClimbs(g, p, l);
    }
  }

  /** A path from a height-0 node to a trail end has exactly nine edges. */
  lemma TrailLength(g: Graph, p: seq<nat>)
    requires Graded(g) && IsPath(g, p)
    requires g.heights[p[0]] == 0 && g.heights[p[|p| - 1]] == MaxHeight
    ensures |p| == MaxHeight + 1
  {
    PathClimbs(g, p, |p| - 1);
  }

  /** Node `b` is a descendant of node `a`: some path of at least one edge
      leads from `a` to `b`. */
  ghost predicate Reaches(g: Graph, a: nat, b: nat)
  {
    exists p :: IsPath(g, p) && |p| >= 2 && p[0] == a && p[|p| - 1] == b
  }

  /** The nodes at the end of the paths of exactly `k` edges from `a`. */
  function Frontier(g: Graph, a: nat, k: nat): set<nat>
    decreases k
  {
    if k == 0 then {a}
    else
      var previous := Frontier(g, a, k - 1);
      set e | e in g.edges && e.from in previous :: e.to
  }

  /** Each node of the `k`-th frontier ends a path of `k` edges from `a`. */
  lemma {:induction false} FrontierPath(g: Graph, a: nat, k: nat, b: nat) returns (p: seq<nat>)
    requires Graded(g) && a < |g.heights|
    requires b in Frontier(g, a, k)
    ensures IsPath(g, p) && |p| == k + 1 && p[0] == a && p[k] == b
    decreases k
  {
    if k == 0 {
      p := [a];
    } else {
      var e :| e in g.edges && e.from in Frontier(g, a, k - 1) && e.to == b;
      var q := FrontierPath(g, a, k - 1, e.from);
      var i :| 0 <= i < |g.edges| && g.edges[i] == e;
      p := q + [b];
      forall j | 0 <= j < |p| ensures p[j] < |g.heights| {
        if j < k {
          assert p[j] == q[j];
        }
      }
      forall j | 0 <= j < |p| - 1 ensures Edge(p[j], p[j + 1]) in g.edges {
        if j < k - 1 {
          assert p[j] == q[j] && p[j + 1] == q[j + 1];
        } else {
          assert p[j] == e.from;
        }
      }
    }
  }

  /** The node `n` edges along a path is in the `n`-th frontier of its start. */
  lemma {:induction false} PathFrontier(g: Graph, p: seq<nat>, n: nat)
    requires IsPath(g, p) && n < |p|
    ensures p[n] in Frontier(g, p[0], n)
    decreases n
  {
    if n > 0 {
      PathFrontier(g, p, n - 1);
      var e := Edge(p[n - 1], p[n]);
      assert e in g.edges;
    }
  }

  // ---------------------------------------------------------------------------
  // Trail ends, trail heads and scores
  // ---------------------------------------------------------------------------

  /** The trail ends reachable from node `a`. Heights rise by one per edge,
      so a node of height `h` below the trail-end height reaches trail ends
      only through paths of exactly `MaxHeight - h` edges. */
  function TrailEnds(g: Graph, a: nat): set<nat>
    requires a < |g.heights|
  {
    var h := g.heights[a];
    if h >= MaxHeight then {}
    else set b | b in Frontier(g, a, (MaxHeight - h) as nat) && b < |g.heights| && g.heights[b] == MaxHeight
  }

  /** The nodes of trail-end height that `a` has as descendants. */
  ghost function ReachableEnds(g: Graph, a: nat): set<nat>
  {
    set b | 0 <= b < |g.heights| && Reaches(g, a, b) && g.heights[b] == MaxHeight
  }

  /** In a graded graph the trail ends computed level by level are exactly
      the descendants of trail-end height. */
  lemma TrailEndsMeaning(g: Graph, a: nat)
    requires Graded(g) && a < |g.heights|
    ensures TrailEnds(g, a) == ReachableEnds(g, a)
  {
    var h := g.heights[a];
    forall b | b in TrailEnds(g, a) ensures b in ReachableEnds(g, a) {
      var p := FrontierPath(g, a, (MaxHeight - h) as nat, b);
      assert IsPath(g, p) && |p| >= 2 && p[0] == a && p[|p| - 1] == b;
    }
    forall b | b in ReachableEnds(g, a) ensures b in TrailEnds(g, a) {
      var p :| IsPath(g, p) && |p| >= 2 && p[0] == a && p[|p| - 1] == b;
      PathClimbs(g, p, |p| - 1);
      PathFrontier(g, p, |p| - 1);
    }
  }

  /** The cells of a row that have height 0, from the left. */
  function RowHeads(m: TopoMap, i: nat): seq<Cell>
    requires Rectangular(m) && i < |m|
  {
    var cells: seq<seq<Cell>> := seq(Cols(m), j requires 0 <= j < Cols(m) => if m[i][j] == 0 then [Cell(i, j)] else []);
    Concat(cells, Cols(m))
  }

  /** The trail heads: the cells of height 0, row by row. */
  function TrailHeads(m: TopoMap): seq<Cell>
    requires Rectangular(m)
  {
    var rows: seq<seq<Cell>> := seq(|m|, i requires 0 <= i < |m| => RowHeads(m, i));
    Concat(rows, |m|)
  }

  /** Strictly increasing in row-major order. */
  predicate Sorted(cs: seq<Cell>)
  {
    forall k, l :: 0 <= k < l < |cs| ==> Before(cs[k], cs[l])
  }

  /** Sorted pieces, each wholly before the later ones, concatenate sorted. */
  lemma {:induction false} ConcatSorted(xs: seq<seq<Cell>>, n: nat)
    requires n <= |xs|
    requires forall k :: 0 <= k < |xs| ==> Sorted(xs[k])
    requires forall k, l, x, y :: 0 <= k < l < |xs| && x in xs[k] && y in xs[l] ==> Before(x, y)
    ensures Sorted(Concat(xs, n))
    decreases n
  {
    if n > 0 {
      ConcatSorted(xs, n - 1);
      var a := Concat(xs, n - 1);
      var b := xs[n - 1];
      var ab := Concat(xs, n);
      assert ab == a + b;
      forall k, l | 0 <= k < l < |ab| ensures Before(ab[k], ab[l]) {
        if l < |a| {
          assert ab[k] == a[k] && ab[l] == a[l];
        } else if k < |a| {
          assert ab[k] == a[k] && ab[l] == b[l - |a|];
          assert a[k] in a && b[l - |a|] in b;
          ConcatMember(xs, n - 1, a[k]);
        } else {
          assert ab[k] == b[k - |a|] && ab[l] == b[l - |a|];
        }
      }
    }
  }

  /** A row's heads are its height-0 cells, from the left. */
  lemma RowHeadsSpec(m: TopoMap, i: nat)
    requires Rectangular(m) && i < |m|
    ensures forall c :: c in RowHeads(m, i) <==> InBounds(m, c) && c.i == i && Height(m, c) == 0
    ensures Sorted(RowHeads(m, i))
  {
    var cells: seq<seq<Cell>> := seq(Cols(m), j requires 0 <= j < Cols(m) => if m[i][j] == 0 then [Cell(i, j)] else []);
    forall c | c in RowHeads(m, i) ensures InBounds(m, c) && c.i == i && Height(m, c) == 0 {
      ConcatMember(cells, Cols(m), c);
    }
    forall c | InBounds(m, c) && c.i == i && Height(m, c) == 0 ensures c in RowHeads(m, i) {
      ConcatContains(cells, Cols(m), c.j);
      assert c in cells[c.j];
    }
    ConcatSorted(cells, Cols(m));
  }

  /** The trail heads are exactly the cells of height 0, in row-major order. */
  lemma TrailHeadsSpec(m: TopoMap)
    requires Rectangular(m)
    ensures forall c :: c in TrailHeads(m) <==> InBounds(m, c) && Height(m, c) == 0
    ensures Sorted(TrailHeads(m))
  {
    var rows: seq<seq<Cell>> := seq(|m|, i requires 0 <= i < |m| => RowHeads(m, i));
    forall i | 0 <= i < |m|
      ensures forall c :: c in rows[i] <==> InBounds(m, c) && c.i == i && Height(m, c) == 0
      ensures Sorted(rows[i])
    {
      RowHeadsSpec(m, i);
    }
    forall c | c in TrailHeads(m) ensures InBounds(m, c) && Height(m, c) == 0 {
      ConcatMember(rows, |m|, c);
    }
    forall c | InBounds(m, c) && Height(m, c) == 0 ensures c in TrailHeads(m) {
      ConcatContains(rows, |m|, c.i);
    }
    ConcatSorted(rows, |m|);
  }

  /** A map together with its trail graph. */
  datatype HikingMap = HikingMap(topoMap: TopoMap, graph: Graph)

  /** The graph is the trail graph of the map. */
  predicate Valid(hm: HikingMap)
  {
    Rectangular(hm.topoMap) && hm.graph == MapToGraph(hm.topoMap)
  }

  function FromTopoMap(m: TopoMap): (hm: HikingMap)
    requires Rectangular(m)
    ensures Valid(hm) && hm.topoMap == m
  {
    HikingMap(m, MapToGraph(m))
  }

  /** The number of trail ends a trail head leads to. */
  function ScoreTrailHead(hm: HikingMap, head: Cell): nat
    requires Valid(hm) && InBounds(hm.topoMap, head)
  {
    MapToGraphNodes(hm.topoMap);
    |TrailEnds(hm.graph, Id(hm.topoMap, head))|
  }

  /** The summed scores of the first `n` trail heads in `heads`. */
  function SumScores(hm: HikingMap, heads: seq<Cell>, n: nat): nat
    requires Valid(hm) && n <= |heads|
    requires forall k :: 0 <= k < |heads| ==> InBounds(hm.topoMap, heads[k])
    decreases n
  {
    if n == 0 then 0 else SumScores(hm, heads, n - 1) + ScoreTrailHead(hm, heads[n - 1])
  }

  /** The scores of all trail heads, summed. */
  function ScoreHikingMap(hm: HikingMap): nat
    requires Valid(hm)
  {
    var heads := TrailHeads(hm.topoMap);
    TrailHeadsSpec(hm.topoMap);
    SumScores(hm, heads, |heads|)
  }

  /** A trail head's score counts the cells of trail-end height that can be
      reached from it along trails. */
  lemma ScoreTrailHeadMeaning(hm: HikingMap, head: Cell)
    requires Valid(hm) && InBounds(hm.topoMap, head)
    ensures ScoreTrailHead(hm, head) == |ReachableEnds(hm.graph, Id(hm.topoMap, head))|
  {
    MapToGraphNodes(hm.topoMap);
    MapToGraphGraded(hm.topoMap);
    TrailEndsMeaning(hm.graph, Id(hm.topoMap, head));
  }

  /** The summed reachable trail ends of the first `n` cells of `heads`. */
  ghost function SumReachable(hm: HikingMap, heads: seq<Cell>, n: nat): nat
    requires n <= |heads|
    decreases n
  {
    if n == 0 then 0
    else SumReachable(hm, heads, n - 1) + |ReachableEnds(hm.graph, Id(hm.topoMap, heads[n - 1]))|
  }

  lemma {:induction false} SumScoresMeaning(hm: HikingMap, heads: seq<Cell>, n: nat)
    requires Valid(hm) && n <= |heads|
    requires forall k :: 0 <= k < |heads| ==> InBounds(hm.topoMap, heads[k])
    ensures SumScores(hm, heads, n) == SumReachable(hm, heads, n)
    decreases n
  {
    if n > 0 {
      SumScoresMeaning(hm, heads, n - 1);
      ScoreTrailHeadMeaning(hm, heads[n - 1]);
    }
  }

  /** The map's score adds up, over the height-0 cells in row-major order,
      the number of trail ends each can reach. */
  lemma ScoreHikingMapMeaning(hm: HikingMap)
    requires Valid(hm)
    ensures var heads := TrailHeads(hm.topoMap);
      && (forall c :: c in heads <==> InBounds(hm.topoMap, c) && Height(hm.topoMap, c) == 0)
      && Sorted(heads)
      && ScoreHikingMap(hm) == SumReachable(hm, heads, |heads|)
  {
    var heads := TrailHeads(hm.topoMap);
    TrailHeadsSpec(hm.topoMap);
    SumScoresMeaning(hm, heads, |heads|);
  }
}
