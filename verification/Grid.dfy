/** Grid proposals for an image: cell edges rounded half to even, clamped, and listed without
    repetitions. Edges are exact multiples of width / grid. */
module Grid {
  import opened Arithmetic
  import opened Sequences

  // ---------- rounding ----------

  /** `round(n / d)`: to the nearest integer, halves to the even one. */
  function RoundDiv(n: int, d: nat): int
    requires d > 0
  {
    var q, r := n / d, n % d;
    if 2 * r < d then q else if 2 * r > d then q + 1 else if q % 2 == 0 then q else q + 1
  }

  /** m is nearest to n / d, and even if n / d is half way. */
  predicate Nearest(n: int, d: nat, m: int) {
    && (2 * m - 1) * d <= 2 * n <= (2 * m + 1) * d
    && (2 * n == (2 * m + 1) * d || 2 * n == (2 * m - 1) * d ==> m % 2 == 0)
  }

  lemma RoundIsNearest(n: int, d: nat)
    requires d > 0
    ensures Nearest(n, d, RoundDiv(n, d))
  {
    var q, r := n / d, n % d;
    DivMod(n, d);
    assert (2 * q + 1) * d == 2 * (q * d) + d && (2 * q - 1) * d == 2 * (q * d) - d && (2 * q + 3) * d == 2 * (q * d) + 3 * d;
    assert 2 * (q + 1) - 1 == 2 * q + 1 && 2 * (q + 1) + 1 == 2 * q + 3;
  }

  lemma RoundWhole(k: int, d: nat)
    requires d > 0
    ensures RoundDiv(k * d, d) == k
  {
    DivUnique(k * d, d, k, 0);
  }

  lemma RoundMonotone(n: int, n': int, d: nat)
    requires d > 0 && n <= n'
    ensures RoundDiv(n, d) <= RoundDiv(n', d)
  {
    var m, m' := RoundDiv(n, d), RoundDiv(n', d);
    RoundIsNearest(n, d);
    RoundIsNearest(n', d);
    if m' < m { MulMonotone(2 * m' + 1, 2 * m - 1, d); }
  }

  /** Less than one apart: at most one step. */
  lemma RoundStepSmall(n: int, w: nat, d: nat)
    requires d > 0 && w < d
    ensures RoundDiv(n + w, d) <= RoundDiv(n, d) + 1
  {
    var m, m' := RoundDiv(n, d), RoundDiv(n + w, d);
    RoundIsNearest(n, d);
    RoundIsNearest(n + w, d);
    assert (2 * m + 3) * d == (2 * m + 1) * d + 2 * d;
    if m' >= m + 2 { MulMonotone(2 * m + 3, 2 * m' - 1, d); }
  }

  /** At least one apart, starting from a multiple of the distance: at least one step. */
  lemma RoundStepLarge(k: int, w: nat, d: nat)
    requires d > 0 && w >= d
    ensures RoundDiv(k * w + w, d) > RoundDiv(k * w, d)
  {
    var n := k * w;
    var m := RoundDiv(n, d);
    RoundMonotone(n, n + w, d);
    RoundIsNearest(n, d);
    RoundIsNearest(n + w, d);
    if RoundDiv(n + w, d) == m {
      assert (2 * m + 1) * d == (2 * m - 1) * d + 2 * d;
      assert w == d && 2 * (k * d) == (2 * m - 1) * d;
      assert (2 * k) * d == (2 * m - 1) * d;
      SameFactor(2 * k, 2 * m - 1, d);
    }
  }

  lemma SameFactor(x: int, y: int, d: nat)
    requires d > 0 && x * d == y * d
    ensures x == y
  {
    assert (x + 1) * d == x * d + d && (y + 1) * d == y * d + d;
    if x < y { MulMonotone(x + 1, y, d); }
    if y < x { MulMonotone(y + 1, x, d); }
  }

  // ---------- one direction ----------

  datatype Interval = Interval(lo: int, hi: int) {
    predicate Has(p: int) { lo <= p < hi }
  }

  function Min(x: int, y: int): int { if x <= y then x else y }
  function Max(x: int, y: int): int { if x >= y then x else y }

  /** `clamp_box` in one direction. */
  function Clamp(i: Interval, size: nat): Interval {
    var lo, hi := Max(0, Min(size - 1, i.lo)), Max(1, Min(size, i.hi));
    Interval(lo, if hi <= lo then Min(size, lo + 1) else hi)
  }

  function Edge(k: int, size: nat, grid: nat): int
    requires grid > 0
  {
    RoundDiv(k * size, grid)
  }

  function Raw(k: int, size: nat, grid: nat): Interval
    requires grid > 0
  {
    Interval(Edge(k, size, grid), Edge(k + 1, size, grid))
  }

  function Cell(k: int, size: nat, grid: nat): Interval
    requires grid > 0
  {
    Clamp(Raw(k, size, grid), size)
  }

  lemma EdgeEnds(size: nat, grid: nat)
    requires grid > 0
    ensures Edge(0, size, grid) == 0 && Edge(grid, size, grid) == size
  {
    RoundWhole(0, grid);
    RoundWhole(size, grid);
    assert grid * size == size * grid;
  }

  lemma EdgeMonotone(k: int, l: int, size: nat, grid: nat)
    requires grid > 0 && k <= l
    ensures Edge(k, size, grid) <= Edge(l, size, grid)
  {
    MulMonotone(k, l, size);
    RoundMonotone(k * size, l * size, grid);
  }

  lemma EdgeStep(k: int, size: nat, grid: nat)
    requires grid > 0
    ensures if grid <= size then Edge(k + 1, size, grid) > Edge(k, size, grid)
            else Edge(k, size, grid) <= Edge(k + 1, size, grid) <= Edge(k, size, grid) + 1
  {
    assert (k + 1) * size == k * size + size;
    if grid <= size {
      RoundStepLarge(k, size, grid);
    } else {
      EdgeMonotone(k, k + 1, size, grid);
      RoundStepSmall(k * size, size, grid);
    }
  }

  lemma EdgeRange(k: int, size: nat, grid: nat)
    requires grid > 0 && 0 <= k <= grid
    ensures 0 <= Edge(k, size, grid) <= size
  {
    EdgeEnds(size, grid);
    EdgeMonotone(0, k, size, grid);
    EdgeMonotone(k, grid, size, grid);
  }

  /** Some cell's edges enclose p. */
  lemma {:induction false} EdgesAround(p: int, n: int, size: nat, grid: nat) returns (k: int)
    requires grid > 0 && 0 <= n <= grid && 0 <= p < Edge(n, size, grid)
    ensures 0 <= k < n && Raw(k, size, grid).Has(p)
    decreases n
  {
    EdgeEnds(size, grid);
    if Edge(n - 1, size, grid) <= p { k := n - 1; } else { k := EdgesAround(p, n - 1, size, grid); }
  }

  /** What clamping does to a cell: nothing, or it widens an empty one to one pixel. */
  lemma CellShape(k: int, size: nat, grid: nat)
    requires grid > 0 && size > 0 && 0 <= k < grid
    ensures var r, c := Raw(k, size, grid), Cell(k, size, grid);
            && 0 <= c.lo < c.hi <= size
            && (c == r <==> r.lo < r.hi)
            && (grid > size ==> c.hi == c.lo + 1)
            && (grid <= size ==> r.lo < r.hi)
  {
    EdgeRange(k, size, grid);
    EdgeRange(k + 1, size, grid);
    EdgeStep(k, size, grid);
  }

  /** Where an edge interval ends up: one inside the image stays, an empty one becomes the pixel it is
      at, or the last pixel if it is at the end. */
  lemma ClampPlace(i: Interval, size: nat)
    requires size > 0 && 0 <= i.lo <= i.hi <= size
    ensures Clamp(i, size) == if i.lo < i.hi then i else if i.lo < size then Interval(i.lo, i.lo + 1) else Interval(size - 1, size)
  {
  }

  /** Cells that share a pixel are the same interval. */
  lemma CellsApart(k: int, l: int, p: int, size: nat, grid: nat)
    requires grid > 0 && size > 0 && 0 <= k < grid && 0 <= l < grid
    requires Cell(k, size, grid).Has(p) && Cell(l, size, grid).Has(p)
    ensures Cell(k, size, grid) == Cell(l, size, grid)
  {
    CellShape(k, size, grid);
    CellShape(l, size, grid);
    if grid <= size {
      if k < l { EdgeMonotone(k + 1, l, size, grid); }
      if l < k { EdgeMonotone(l + 1, k, size, grid); }
    }
  }

  lemma CellAround(p: int, size: nat, grid: nat) returns (k: int)
    requires grid > 0 && 0 <= p < size
    ensures 0 <= k < grid && Cell(k, size, grid).Has(p)
  {
    EdgeEnds(size, grid);
    k := EdgesAround(p, grid, size, grid);
    CellShape(k, size, grid);
  }

  // ---------- boxes ----------

  datatype Box = Box(x: Interval, y: Interval)

  predicate InBox(b: Box, px: int, py: int) { b.x.Has(px) && b.y.Has(py) }

  function BoxAt(width: nat, height: nat, grid: nat, row: nat, col: nat): Box
    requires grid > 0
  {
    Box(Cell(col, width, grid), Cell(row, height, grid))
  }

  function RawBoxAt(width: nat, height: nat, grid: nat, row: nat, col: nat): Box
    requires grid > 0
  {
    Box(Raw(col, width, grid), Raw(row, height, grid))
  }

  predicate IsCell(width: nat, height: nat, grid: nat, b: Box)
    requires grid > 0
  {
    exists row, col :: 0 <= row < grid && 0 <= col < grid && BoxAt(width, height, grid, row, col) == b
  }

  predicate Inside(b: Box, width: nat, height: nat) { 0 <= b.x.lo < b.x.hi <= width && 0 <= b.y.lo < b.y.hi <= height }

  /** The boxes of a grid, taken as a set, tile the image: they are not empty, lie inside it, and every
      pixel is in exactly one of them. This holds for every grid, also a finer one than the image. */
  lemma GridTiles(width: nat, height: nat, grid: nat, px: int, py: int)
    requires width > 0 && height > 0 && grid > 0 && 0 <= px < width && 0 <= py < height
    ensures exists b :: IsCell(width, height, grid, b) && InBox(b, px, py)
    ensures forall b, c :: IsCell(width, height, grid, b) && IsCell(width, height, grid, c) && InBox(b, px, py) && InBox(c, px, py) ==> b == c
    ensures forall b :: IsCell(width, height, grid, b) ==> Inside(b, width, height)
  {
    var col := CellAround(px, width, grid);
    var row := CellAround(py, height, grid);
    assert IsCell(width, height, grid, BoxAt(width, height, grid, row, col));
    forall b, c | IsCell(width, height, grid, b) && IsCell(width, height, grid, c) && InBox(b, px, py) && InBox(c, px, py) ensures b == c {
      BoxesApart(width, height, grid, b, c, px, py);
    }
    forall b | IsCell(width, height, grid, b) ensures Inside(b, width, height) {
      var row, col :| 0 <= row < grid && 0 <= col < grid && BoxAt(width, height, grid, row, col) == b;
      CellShape(col, width, grid);
      CellShape(row, height, grid);
    }
  }

  lemma BoxesApart(width: nat, height: nat, grid: nat, b: Box, c: Box, px: int, py: int)
    requires width > 0 && height > 0 && grid > 0 && IsCell(width, height, grid, b) && IsCell(width, height, grid, c)
    requires InBox(b, px, py) && InBox(c, px, py)
    ensures b == c
  {
    var row, col :| 0 <= row < grid && 0 <= col < grid && BoxAt(width, height, grid, row, col) == b;
    var row', col' :| 0 <= row' < grid && 0 <= col' < grid && BoxAt(width, height, grid, row', col') == c;
    CellsApart(col, col', px, width, grid);
    CellsApart(row, row', py, height, grid);
  }

  predicate Unclamped(width: nat, height: nat, grid: nat, row: nat, col: nat)
    requires grid > 0
  {
    BoxAt(width, height, grid, row, col) == RawBoxAt(width, height, grid, row, col)
  }

  /** Clamping leaves all boxes of a grid as they are if and only if the grid is no finer than the
      image. */
  lemma ClampExact(width: nat, height: nat, grid: nat)
    requires width > 0 && height > 0 && grid > 0
    ensures (forall row: nat, col: nat :: row < grid && col < grid ==> Unclamped(width, height, grid, row, col))
       <==> grid <= Min(width, height)
  {
    hide *;
    if grid <= Min(width, height) {
      forall row: nat, col: nat | row < grid && col < grid ensures Unclamped(width, height, grid, row, col) {
        FineBox(width, height, grid, row, col);
      }
    } else {
      var row, col := CoarseBox(width, height, grid);
      assert row < grid && col < grid && !Unclamped(width, height, grid, row, col);
    }
  }

  lemma FineBox(width: nat, height: nat, grid: nat, row: nat, col: nat)
    requires width > 0 && height > 0 && 0 < grid <= Min(width, height) && row < grid && col < grid
    ensures Unclamped(width, height, grid, row, col)
  {
    CellShape(col, width, grid);
    CellShape(row, height, grid);
    hide Cell, Raw;
  }

  lemma CoarseBox(width: nat, height: nat, grid: nat) returns (row: nat, col: nat)
    requires width > 0 && height > 0 && grid > 0 && grid > Min(width, height)
    ensures row < grid && col < grid && !Unclamped(width, height, grid, row, col)
  {
    EdgeEnds(width, grid);
    EdgeEnds(height, grid);
    row, col := 0, 0;
    if grid > width {
      col := EmptyCell(width, grid, grid);
      CellShape(col, width, grid);
    } else {
      row := EmptyCell(height, grid, grid);
      CellShape(row, height, grid);
    }
    hide Cell, Raw;
  }

  /** More cells than pixels: before clamping one of them is empty. */
  lemma {:induction false} EmptyCell(size: nat, grid: nat, n: nat) returns (k: nat)
    requires grid > 0 && n <= grid && n > Edge(n, size, grid)
    ensures k < n && Raw(k, size, grid).lo >= Raw(k, size, grid).hi
    decreases n
  {
    EdgeEnds(size, grid);
    k := n - 1;
    if Edge(n - 1, size, grid) < Edge(n, size, grid) { k := EmptyCell(size, grid, n - 1); }
  }

  // ---------- the list of proposals ----------

  datatype Place = Place(grid: nat, row: nat, col: nat)

  function BoxOf(width: nat, height: nat, p: Place): Box
    requires p.grid > 0
  {
    BoxAt(width, height, p.grid, p.row, p.col)
  }

  /** The places of a grid up to n in row-major order. */
  function PlacesOfRow(grid: nat, row: nat, n: nat): seq<Place> {
    if n == 0 then [] else PlacesOfRow(grid, row, n - 1) + [Place(grid, row, n - 1)]
  }

  function PlacesOf(grid: nat, rows: nat): seq<Place> {
    if rows == 0 then [] else PlacesOf(grid, rows - 1) + PlacesOfRow(grid, rows - 1, grid)
  }

  function AllPlaces(grids: seq<nat>): seq<Place> {
    if grids == [] then [] else AllPlaces(grids[..|grids|-1]) + PlacesOf(grids[|grids|-1], grids[|grids|-1])
  }

  predicate Positive(ps: seq<Place>) { forall i :: 0 <= i < |ps| ==> ps[i].grid > 0 }

  function Boxes(width: nat, height: nat, ps: seq<Place>): set<Box>
    requires Positive(ps)
  {
    set i | 0 <= i < |ps| :: BoxOf(width, height, ps[i])
  }

  /** The first place of every box, in order. */
  function Firsts(width: nat, height: nat, ps: seq<Place>): seq<Place>
    requires Positive(ps)
  {
    if ps == [] then []
    else
      var init, p := ps[..|ps|-1], ps[|ps|-1];
      Firsts(width, height, init) + if BoxOf(width, height, p) in Boxes(width, height, init) then [] else [p]
  }

  predicate AllPositive(grids: seq<nat>) { forall i :: 0 <= i < |grids| ==> grids[i] > 0 }

  lemma {:induction false} RowMember(grid: nat, row: nat, n: nat, p: Place)
    ensures p in PlacesOfRow(grid, row, n) <==> p.grid == grid && p.row == row && p.col < n
  {
    if n > 0 { RowMember(grid, row, n - 1, p); }
  }

  lemma {:induction false} GridMember(grid: nat, rows: nat, p: Place)
    ensures p in PlacesOf(grid, rows) <==> p.grid == grid && p.row < rows && p.col < grid
  {
    hide *;
    PlacesNext(grid, rows);
    if rows > 0 {
      GridMember(grid, rows - 1, p);
      RowMember(grid, rows - 1, grid, p);
      InJoined(PlacesOf(grid, rows - 1), PlacesOfRow(grid, rows - 1, grid), p);
    }
  }

  lemma PlacesNext(grid: nat, rows: nat)
    ensures PlacesOf(grid, rows) == if rows == 0 then [] else PlacesOf(grid, rows - 1) + PlacesOfRow(grid, rows - 1, grid)
  {
    hide PlacesOfRow;
  }

  lemma {:induction false} PlaceMember(grids: seq<nat>, p: Place)
    ensures p in AllPlaces(grids) <==> p.grid in grids && p.row < p.grid && p.col < p.grid
  {
    hide *;
    if grids == [] {
      NoPlaces();
    } else {
      var init, g := grids[..|grids|-1], grids[|grids|-1];
      MorePlaces(grids);
      PlaceMember(init, p);
      GridMember(g, g, p);
      InJoined(AllPlaces(init), PlacesOf(g, g), p);
      InJoined(init, [g], p.grid);
    }
  }

  lemma NoPlaces()
    ensures AllPlaces([]) == []
  {
  }

  lemma MorePlaces(grids: seq<nat>)
    requires grids != []
    ensures var init, g := grids[..|grids|-1], grids[|grids|-1]; grids == init + [g] && AllPlaces(grids) == AllPlaces(init) + PlacesOf(g, g)
  {
    hide PlacesOf;
  }

  lemma AllPlacesPositive(grids: seq<nat>)
    requires AllPositive(grids)
    ensures Positive(AllPlaces(grids))
  {
    forall i | 0 <= i < |AllPlaces(grids)| ensures AllPlaces(grids)[i].grid > 0 {
      PlaceMember(grids, AllPlaces(grids)[i]);
    }
  }

  /** What the loops have found so far. */
  ghost predicate Found(width: nat, height: nat, ps: seq<Place>, proposals: seq<Place>, seen: set<Box>) {
    Positive(ps) && proposals == Firsts(width, height, ps) && seen == Boxes(width, height, ps)
  }

  lemma FoundNext(width: nat, height: nat, ps: seq<Place>, proposals: seq<Place>, seen: set<Box>, p: Place)
    requires Found(width, height, ps, proposals, seen) && p.grid > 0
    ensures var b := BoxOf(width, height, p);
            if b in seen then Found(width, height, ps + [p], proposals, seen)
            else Found(width, height, ps + [p], proposals + [p], seen + {b})
  {
    var qs, b := ps + [p], BoxOf(width, height, p);
    assert qs[..|qs|-1] == ps;
    assert Boxes(width, height, qs) == Boxes(width, height, ps) + {b} by {
      forall c ensures c in Boxes(width, height, qs) <==> c in Boxes(width, height, ps) || c == b {
        if c in Boxes(width, height, ps) {
          var i :| 0 <= i < |ps| && BoxOf(width, height, ps[i]) == c;
          assert qs[i] == ps[i];
        }
        if c == b { assert qs[|ps|] == p; }
      }
    }
  }

  method GenerateGridBoxes(width: nat, height: nat, grids: seq<nat>) returns (proposals: seq<Place>)
    requires AllPositive(grids)
    ensures Positive(AllPlaces(grids)) && proposals == Firsts(width, height, AllPlaces(grids))
  {
    proposals := [];
    var seen: set<Box> := {};
    NothingFound(width, height, grids);
    hide *;
    for g := 0 to |grids|
      invariant Found(width, height, AllPlaces(grids[..g]), proposals, seen)
    {
      var grid := grids[g];
      GridTurn(grids, g);
      for row := 0 to grid
        invariant Found(width, height, AllPlaces(grids[..g]) + PlacesOf(grid, row), proposals, seen)
      {
        ghost var above := AllPlaces(grids[..g]) + PlacesOf(grid, row);
        RowTurn(AllPlaces(grids[..g]), grid, row);
        for col := 0 to grid
          invariant Found(width, height, above + PlacesOfRow(grid, row, col), proposals, seen)
        {
          var p := Place(grid, row, col);
          FoundNext(width, height, above + PlacesOfRow(grid, row, col), proposals, seen, p);
          ColTurn(above, grid, row, col);
          var box := BoxOf(width, height, p);
          if box !in seen {
            seen := seen + {box};
            proposals := proposals + [p];
          }
        }
      }
    }
    assert grids[..|grids|] == grids;
    FoundAll(width, height, AllPlaces(grids), proposals, seen);
  }

  lemma NothingFound(width: nat, height: nat, grids: seq<nat>)
    requires AllPositive(grids)
    ensures Found(width, height, AllPlaces(grids[..0]), [], {}) && forall g :: 0 <= g < |grids| ==> grids[g] > 0
  {
  }

  lemma FoundAll(width: nat, height: nat, ps: seq<Place>, proposals: seq<Place>, seen: set<Box>)
    requires Found(width, height, ps, proposals, seen)
    ensures Positive(ps) && proposals == Firsts(width, height, ps)
  {
  }

  lemma GridTurn(grids: seq<nat>, g: nat)
    requires g < |grids|
    ensures AllPlaces(grids[..g]) + PlacesOf(grids[g], 0) == AllPlaces(grids[..g])
    ensures AllPlaces(grids[..g]) + PlacesOf(grids[g], grids[g]) == AllPlaces(grids[..g + 1])
  {
    assert grids[..g + 1][..g] == grids[..g];
  }

  lemma RowTurn(before: seq<Place>, grid: nat, row: nat)
    ensures before + PlacesOf(grid, row) + PlacesOfRow(grid, row, 0) == before + PlacesOf(grid, row)
    ensures before + PlacesOf(grid, row) + PlacesOfRow(grid, row, grid) == before + PlacesOf(grid, row + 1)
  {
  }

  lemma ColTurn(above: seq<Place>, grid: nat, row: nat, col: nat)
    ensures above + PlacesOfRow(grid, row, col) + [Place(grid, row, col)] == above + PlacesOfRow(grid, row, col + 1)
  {
  }

  predicate DistinctBoxes(width: nat, height: nat, ps: seq<Place>) {
    Positive(ps) && forall i, j :: 0 <= i < j < |ps| ==> BoxOf(width, height, ps[i]) != BoxOf(width, height, ps[j])
  }

  /** The proposals have distinct boxes, and all boxes of all grids are among them. */
  lemma {:induction false} FirstsExact(width: nat, height: nat, ps: seq<Place>)
    requires Positive(ps)
    ensures var qs := Firsts(width, height, ps);
            && DistinctBoxes(width, height, qs)
            && Positive(qs) && Boxes(width, height, qs) == Boxes(width, height, ps)
  {
    hide *;
    if ps == [] {
      NoFirsts(width, height);
    } else {
      var init, p := ps[..|ps|-1], ps[|ps|-1];
      PlacesSnoc(ps);
      FirstsNext(width, height, init, p);
      FirstsExact(width, height, init);
      MoreBoxes(width, height, init, p);
      AddFirst(width, height, init, Firsts(width, height, init), p);
    }
  }

  lemma NoFirsts(width: nat, height: nat)
    ensures Positive([]) && Firsts(width, height, []) == [] && DistinctBoxes(width, height, [])
  {
  }

  lemma PlacesSnoc(ps: seq<Place>)
    requires Positive(ps) && ps != []
    ensures ps == ps[..|ps|-1] + [ps[|ps|-1]]
  {
  }

  /** One more place, if its box is new. */
  lemma AddFirst(width: nat, height: nat, ps: seq<Place>, qs: seq<Place>, p: Place)
    requires Positive(ps) && DistinctBoxes(width, height, qs) && Positive(qs) && p.grid > 0
    requires Boxes(width, height, qs) == Boxes(width, height, ps)
    ensures var b := BoxOf(width, height, p);
            var rs := qs + if b in Boxes(width, height, ps) then [] else [p];
            DistinctBoxes(width, height, rs) && Positive(rs) && Boxes(width, height, rs) == Boxes(width, height, ps) + {b}
  {
    hide *;
    if BoxOf(width, height, p) in Boxes(width, height, ps) {
      assert qs + [] == qs;
    } else {
      MoreBoxes(width, height, qs, p);
      AnotherBox(width, height, qs, p);
    }
  }

  lemma AnotherBox(width: nat, height: nat, ps: seq<Place>, p: Place)
    requires DistinctBoxes(width, height, ps) && p.grid > 0
    ensures Positive(ps) && (BoxOf(width, height, p) !in Boxes(width, height, ps) ==> DistinctBoxes(width, height, ps + [p]))
  {
    BoxesHas(width, height, ps);
    hide BoxOf, Boxes;
  }

  lemma FirstsNext(width: nat, height: nat, ps: seq<Place>, p: Place)
    requires Positive(ps + [p])
    ensures p.grid > 0 && Positive(ps)
    ensures Firsts(width, height, ps + [p])
         == Firsts(width, height, ps) + if BoxOf(width, height, p) in Boxes(width, height, ps) then [] else [p]
  {
    hide BoxOf, Boxes;
    assert (ps + [p])[|ps|] == p && (ps + [p])[..|ps|] == ps;
    assert forall i :: 0 <= i < |ps| ==> (ps + [p])[i] == ps[i];
  }

  lemma BoxesHas(width: nat, height: nat, ps: seq<Place>)
    requires Positive(ps)
    ensures forall i :: 0 <= i < |ps| ==> ps[i].grid > 0 && BoxOf(width, height, ps[i]) in Boxes(width, height, ps)
  {
    hide BoxOf;
  }

  lemma MoreBoxes(width: nat, height: nat, ps: seq<Place>, p: Place)
    requires Positive(ps) && p.grid > 0
    ensures Positive(ps + [p]) && Boxes(width, height, ps + [p]) == Boxes(width, height, ps) + {BoxOf(width, height, p)}
  {
    FoundNext(width, height, ps, Firsts(width, height, ps), Boxes(width, height, ps), p);
    hide BoxOf, Firsts, Boxes;
  }

  /** Dropping repeated boxes loses nothing: for every grid asked for, every pixel is in the box of a
      proposal that is a cell of that grid. */
  lemma NoCoverageLost(width: nat, height: nat, grids: seq<nat>, grid: nat, px: int, py: int)
    requires AllPositive(grids) && grid in grids && 0 <= px < width && 0 <= py < height
    ensures Positive(AllPlaces(grids)) && Positive(Firsts(width, height, AllPlaces(grids))) && grid > 0
    ensures exists b :: b in Boxes(width, height, Firsts(width, height, AllPlaces(grids))) && IsCell(width, height, grid, b) && InBox(b, px, py)
  {
    var g :| 0 <= g < |grids| && grids[g] == grid;
    AllPlacesPositive(grids);
    FirstsExact(width, height, AllPlaces(grids));
    GridTiles(width, height, grid, px, py);
    var b :| IsCell(width, height, grid, b) && InBox(b, px, py);
    var row, col :| 0 <= row < grid && 0 <= col < grid && BoxAt(width, height, grid, row, col) == b;
    PlaceMember(grids, Place(grid, row, col));
    var k :| 0 <= k < |AllPlaces(grids)| && AllPlaces(grids)[k] == Place(grid, row, col);
    assert BoxOf(width, height, AllPlaces(grids)[k]) == b;
  }

  // ---------- the order of the proposals ----------

  lemma {:induction false} RowAt(grid: nat, row: nat, n: nat, col: nat)
    requires col < n
    ensures |PlacesOfRow(grid, row, n)| == n && PlacesOfRow(grid, row, n)[col] == Place(grid, row, col)
  {
    RowLength(grid, row, n - 1);
    if col < n - 1 { RowAt(grid, row, n - 1, col); }
  }

  lemma {:induction false} RowLength(grid: nat, row: nat, n: nat)
    ensures |PlacesOfRow(grid, row, n)| == n
  {
    if n > 0 { RowLength(grid, row, n - 1); }
  }

  lemma {:induction false} GridLength(grid: nat, rows: nat)
    ensures |PlacesOf(grid, rows)| == Position(rows, grid, 0)
  {
    if rows > 0 {
      GridLength(grid, rows - 1);
      RowLength(grid, rows - 1, grid);
      assert rows * grid == (rows - 1) * grid + grid;
    }
  }

  /** The places of a grid are listed row by row, each row from left to right. */
  lemma {:induction false} GridAt(grid: nat, rows: nat, row: nat, col: nat)
    requires row < rows && col < grid
    ensures Position(row, grid, col) < |PlacesOf(grid, rows)| && PlacesOf(grid, rows)[Position(row, grid, col)] == Place(grid, row, col)
  {
    hide *;
    PlacesNext(grid, rows);
    GridLength(grid, rows - 1);
    RowLength(grid, rows - 1, grid);
    PlaceBelow(rows - 1, row, grid, col);
    if row < rows - 1 { GridAt(grid, rows - 1, row, col); } else { RowAt(grid, row, grid, col); }
  }

  lemma PlaceBelow(rows: nat, row: nat, grid: nat, col: nat)
    requires row <= rows && col < grid
    ensures if row < rows then Position(row, grid, col) < Position(rows, grid, 0) else Position(row, grid, col) == Position(rows, grid, 0) + col
  {
    assert (row + 1) * grid == row * grid + grid;
    if row < rows { MulMonotone(row + 1, rows, grid); }
  }

  /** Grid after grid, in the order asked for. */
  lemma GridsInOrder(grids: seq<nat>, g: nat)
    requires g < |grids|
    ensures AllPlaces(grids[..g]) + PlacesOf(grids[g], grids[g]) == AllPlaces(grids[..g + 1])
    ensures AllPlaces(grids[..g + 1]) <= AllPlaces(grids)
  {
    hide *;
    GridTurn(grids, g);
    PlacesPrefix(grids, g + 1);
  }

  lemma {:induction false} PlacesPrefix(grids: seq<nat>, g: nat)
    requires g <= |grids|
    ensures AllPlaces(grids[..g]) <= AllPlaces(grids)
    decreases |grids|
  {
    hide *;
    if g < |grids| {
      MorePlaces(grids);
      PlacesPrefix(grids[..|grids|-1], g);
      assert grids[..|grids|-1][..g] == grids[..g];
    } else {
      assert grids[..g] == grids;
    }
  }

  /** The proposals keep that order: a place whose box is new comes behind the proposals for the places
      before it, and nothing is taken out later. */
  lemma {:induction false} FirstsInOrder(width: nat, height: nat, ps: seq<Place>, i: nat)
    requires Positive(ps) && i < |ps|
    ensures Positive(ps[..i]) && ps[i].grid > 0
    ensures var qs, front := Firsts(width, height, ps), Firsts(width, height, ps[..i]);
            && front <= qs
            && (BoxOf(width, height, ps[i]) !in Boxes(width, height, ps[..i]) ==> |front| < |qs| && qs[|front|] == ps[i])
    decreases |ps|
  {
    hide *;
    PrefixPositive(ps, i);
    PlacesSnoc(ps);
    var n := |ps| - 1;
    FirstsNext(width, height, ps[..n], ps[n]);
    if i < n {
      PrefixPositive(ps, n);
      FirstsInOrder(width, height, ps[..n], i);
      assert ps[..n][..i] == ps[..i];
    }
  }

  lemma PrefixPositive(ps: seq<Place>, i: nat)
    requires Positive(ps) && i < |ps|
    ensures Positive(ps[..i]) && ps[i].grid > 0
  {
  }
}
