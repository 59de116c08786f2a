/** The sector grid: GameServer/Zone/Zone.cpp.

    A `Sector` is uniquely owned by its grid slot, so it is a value stored in an
    `array2` slot that the methods overwrite.  The abstract value of the grid is the
    set of placements (id, cell); every contract below is about that set.
 */
module ZoneIndex {
  import opened Wrappers
  import opened Geometry

  datatype Cell = Cell(row: int, col: int)

  datatype Sector = Sector(players: set<nat>, monsters: set<nat>)

  /** Which of the two id sets of a sector an operation works on. */
  datatype Kind = Player | Monster

  type Placement = (nat, Cell)

  function Ids(s: Sector, kind: Kind): set<nat> {
    if kind.Player? then s.players else s.monsters
  }

  function WithIds(s: Sector, kind: Kind, ids: set<nat>): Sector {
    if kind.Player? then s.(players := ids) else s.(monsters := ids)
  }

  function Ceil(v: real): int {
    -((-v).Floor)
  }

  datatype Layout = Layout(width: int, height: int, sectorSize: int) {
    predicate Positive() {
      0 < width && 0 < height && 0 < sectorSize
    }

    predicate InMap(x: real, y: real) {
      0.0 <= x < width as real && 0.0 <= y < height as real
    }

    function Rows(): int
      requires Positive()
    {
      Ceil(height as real / sectorSize as real)
    }

    function Cols(): int
      requires Positive()
    {
      Ceil(width as real / sectorSize as real)
    }

    /** The cell of a point, or None for a point outside the half-open map. */
    function CellOf(x: real, y: real): Option<Cell>
      requires Positive()
    {
      if InMap(x, y) then
        Some(Cell((y / sectorSize as real).Floor, (x / sectorSize as real).Floor))
      else
        None
    }
  }

  /** At most r apart on both axes. */
  predicate Within(x1: real, y1: real, x2: real, y2: real, r: real) {
    Abs(x1 - x2) <= r && Abs(y1 - y2) <= r
  }

  /** The 3x3 block around a cell. */
  predicate Near(a: Cell, b: Cell) {
    -1 <= a.row - b.row <= 1 && -1 <= a.col - b.col <= 1
  }

  /** The cells of the block around `center` that hold `id`. */
  ghost function CellsHolding(placed: set<Placement>, id: nat, center: Cell): set<Cell> {
    set p | p in placed && p.0 == id && Near(p.1, center) :: p.1
  }

  /** `aoi` lists every id once per placement in the block around `center`. */
  ghost predicate IsAOI(aoi: seq<nat>, placed: set<Placement>, center: Cell) {
    forall id: nat :: multiset(aoi)[id] == |CellsHolding(placed, id, center)|
  }

  /** `aoi` answers the area query at (x, y): nothing outside the map. */
  ghost predicate Answers(layout: Layout, placed: set<Placement>, x: real, y: real, aoi: seq<nat>)
    requires layout.Positive()
  {
    if layout.InMap(x, y) then IsAOI(aoi, placed, layout.CellOf(x, y).value) else aoi == []
  }

  // ---- What the operations do to the placements ----

  function Enter(placed: set<Placement>, id: nat, cell: Option<Cell>): set<Placement> {
    if cell.Some? then placed + {(id, cell.value)} else placed
  }

  function Exit(placed: set<Placement>, id: nat, cell: Option<Cell>): set<Placement> {
    if cell.Some? then placed - {(id, cell.value)} else placed
  }

  /** Player move: leaving the map keeps the old placement. */
  function Shift(placed: set<Placement>, id: nat, from: Option<Cell>, to: Option<Cell>): set<Placement> {
    if from.Some? && to.Some? && from != to then Exit(Enter(placed, id, to), id, from)
    else if from.None? then Enter(placed, id, to)
    else placed
  }

  /** Monster move: nothing happens unless both ends are inside the map. */
  function ShiftMonster(placed: set<Placement>, id: nat, from: Option<Cell>, to: Option<Cell>): set<Placement> {
    if from.Some? && to.Some? then Shift(placed, id, from, to) else placed
  }

  // ---- The grid covers the map, and the block covers one sector size ----

  lemma DivTimes(a: real, s: real)
    requires 0.0 < s
    ensures a / s * s == a
  {
  }

  lemma OrderOfFactors(p: real, q: real, s: real)
    requires 0.0 < s
    ensures p <= q <==> p * s <= q * s
  {
    if p < q {
      ProductPositive(q - p, s, (q - p) * s);
    } else if q < p {
      ProductPositive(p - q, s, (p - q) * s);
    }
  }

  lemma DivMonotone(a: real, b: real, s: real)
    requires 0.0 < s
    ensures a <= b <==> a / s <= b / s
  {
    DivTimes(a, s);
    DivTimes(b, s);
    OrderOfFactors(a / s, b / s, s);
  }

  lemma CellInGrid(layout: Layout, x: real, y: real)
    requires layout.Positive()
    ensures layout.CellOf(x, y).Some? <==> layout.InMap(x, y)
    ensures layout.CellOf(x, y).Some? ==>
              var c := layout.CellOf(x, y).value;
              0 <= c.row < layout.Rows() && 0 <= c.col < layout.Cols()
  {
    if layout.InMap(x, y) {
      var s := layout.sectorSize as real;
      DivMonotone(0.0, x, s);
      DivMonotone(0.0, y, s);
      DivMonotone(layout.width as real, x, s);
      DivMonotone(layout.height as real, y, s);
    }
  }

  /** One axis: points at most one sector size apart fall in adjacent indices. */
  lemma AxisAdjacent(a: real, b: real, s: real)
    requires 0.0 < s && Abs(a - b) <= s
    ensures -1 <= (a / s).Floor - (b / s).Floor <= 1
  {
    DivMonotone(a, b + s, s);
    DivMonotone(b, a + s, s);
    DivShift(a, s);
    DivShift(b, s);
  }

  /** One axis: points of adjacent indices are less than two sector sizes apart. */
  lemma AxisApart(a: real, b: real, s: real)
    requires 0.0 < s && -1 <= (a / s).Floor - (b / s).Floor <= 1
    ensures Abs(a - b) < 2.0 * s
  {
    DivShift(a, s);
    DivShift(b, s);
    DivShift(a + s, s);
    DivShift(b + s, s);
    if a - b >= 2.0 * s {
      DivMonotone(b + s + s, a, s);
    }
    if b - a >= 2.0 * s {
      DivMonotone(a + s + s, b, s);
    }
  }

  lemma DivShift(a: real, s: real)
    requires 0.0 < s
    ensures (a + s) / s == a / s + 1.0
  {
    DivTimes(a, s);
    DivTimes(a + s, s);
    assert (a / s + 1.0) * s == a / s * s + s;
    OrderOfFactors(a / s + 1.0, (a + s) / s, s);
    OrderOfFactors((a + s) / s, a / s + 1.0, s);
  }

  /** Inside the map, "within one sector size on both axes" implies "in the 3x3 block",
      which implies "less than two sector sizes apart on both axes". */
  lemma BlockBounds(layout: Layout, x1: real, y1: real, x2: real, y2: real)
    requires layout.Positive() && layout.InMap(x1, y1) && layout.InMap(x2, y2)
    ensures Within(x1, y1, x2, y2, layout.sectorSize as real) ==>
              Near(layout.CellOf(x1, y1).value, layout.CellOf(x2, y2).value)
    ensures Near(layout.CellOf(x1, y1).value, layout.CellOf(x2, y2).value) ==>
              Abs(x1 - x2) < 2.0 * layout.sectorSize as real && Abs(y1 - y2) < 2.0 * layout.sectorSize as real
  {
    var s := layout.sectorSize as real;
    if Within(x1, y1, x2, y2, s) {
      AxisAdjacent(x1, x2, s);
      AxisAdjacent(y1, y2, s);
    }
    if Near(layout.CellOf(x1, y1).value, layout.CellOf(x2, y2).value) {
      AxisApart(x1, x2, s);
      AxisApart(y1, y2, s);
    }
  }

  // ---- The grid object ----

  /** Copies an unordered id set into a vector, in some order. */
  method Listed<T(==)>(ids: set<T>) returns (out: seq<T>)
    ensures multiset(out) == multiset(ids)
  {
    out := [];
    var rest := ids;
    while rest != {}
      invariant rest <= ids && multiset(out) + multiset(rest) == multiset(ids)
      decreases rest
    {
      var id :| id in rest;
      assert multiset(rest) == multiset(rest - {id}) + multiset{id};
      out, rest := out + [id], rest - {id};
    }
  }

  /** The part of CellsHolding visited before cell (row, col) in row-major order. */
  ghost function Visited(placed: set<Placement>, id: nat, center: Cell, row: int, col: int): set<Cell> {
    set p | p in placed && p.0 == id && Near(p.1, center) && (p.1.row < row || (p.1.row == row && p.1.col < col)) :: p.1
  }

  ghost function VisitedCount(placed: set<Placement>, id: nat, center: Cell, row: int, col: int): nat {
    |Visited(placed, id, center, row, col)|
  }

  lemma VisitedStep(placed: set<Placement>, id: nat, center: Cell, row: int, col: int)
    requires Near(Cell(row, col), center)
    ensures VisitedCount(placed, id, center, row, col + 1)
         == VisitedCount(placed, id, center, row, col) + (if (id, Cell(row, col)) in placed then 1 else 0)
  {
    var before, after := Visited(placed, id, center, row, col), Visited(placed, id, center, row, col + 1);
    var cell := Cell(row, col);
    var here := if (id, cell) in placed then {cell} else {};
    forall c ensures c in after <==> c in before + here {
      if c == cell && (id, c) in placed {
        assert (id, c).0 == id && (id, c).1 == c;
      }
      if c in after || c in before {
        assert (id, c) in placed;
      }
    }
    assert after == before + here;
    assert cell !in before;
  }

  lemma VisitedEnds(placed: set<Placement>, id: nat, center: Cell, row: int)
    ensures VisitedCount(placed, id, center, row, center.col + 2)
         == VisitedCount(placed, id, center, row + 1, center.col - 1)
    ensures VisitedCount(placed, id, center, center.row - 1, center.col - 1) == 0
    ensures VisitedCount(placed, id, center, center.row + 2, center.col - 1) == |CellsHolding(placed, id, center)|
  {
    assert Visited(placed, id, center, row, center.col + 2) == Visited(placed, id, center, row + 1, center.col - 1);
    assert Visited(placed, id, center, center.row - 1, center.col - 1) == {};
    assert Visited(placed, id, center, center.row + 2, center.col - 1) == CellsHolding(placed, id, center);
  }

  /** `aoi` lists every id once per placement visited before cell (row, col). */
  ghost predicate Lists(aoi: seq<nat>, placed: set<Placement>, center: Cell, row: int, col: int) {
    forall id: nat :: multiset(aoi)[id] == VisitedCount(placed, id, center, row, col)
  }

  ghost predicate ListsCell(ids: seq<nat>, placed: set<Placement>, cell: Cell) {
    forall id: nat :: multiset(ids)[id] == if (id, cell) in placed then 1 else 0
  }

  lemma ListsStep(aoi: seq<nat>, here: seq<nat>, placed: set<Placement>, center: Cell, row: int, col: int)
    requires Near(Cell(row, col), center)
    requires Lists(aoi, placed, center, row, col) && ListsCell(here, placed, Cell(row, col))
    ensures Lists(aoi + here, placed, center, row, col + 1)
  {
    forall id: nat
      ensures multiset(aoi + here)[id] == VisitedCount(placed, id, center, row, col + 1)
    {
      VisitedStep(placed, id, center, row, col);
    }
  }

  lemma ListsStart(placed: set<Placement>, center: Cell)
    ensures Lists([], placed, center, center.row - 1, center.col - 1)
  {
    forall id: nat ensures multiset([])[id] == VisitedCount(placed, id, center, center.row - 1, center.col - 1) {
      VisitedEnds(placed, id, center, center.row);
    }
  }

  lemma ListsRow(aoi: seq<nat>, placed: set<Placement>, center: Cell, row: int)
    requires Lists(aoi, placed, center, row, center.col + 2)
    ensures Lists(aoi, placed, center, row + 1, center.col - 1)
  {
    forall id: nat ensures multiset(aoi)[id] == VisitedCount(placed, id, center, row + 1, center.col - 1) {
      VisitedEnds(placed, id, center, row);
    }
  }

  lemma ListsEnd(aoi: seq<nat>, placed: set<Placement>, center: Cell)
    requires Lists(aoi, placed, center, center.row + 2, center.col - 1)
    ensures IsAOI(aoi, placed, center)
  {
    forall id: nat ensures multiset(aoi)[id] == |CellsHolding(placed, id, center)| {
      VisitedEnds(placed, id, center, center.row);
    }
  }

  class Zone {
    const layout: Layout
    const grid: array2<Sector>

    ghost predicate Valid() {
      layout.Positive() && grid.Length0 == layout.Rows() && grid.Length1 == layout.Cols()
    }

    ghost function Placed(kind: Kind): set<Placement>
      reads grid
    {
      set r, c, id | 0 <= r < grid.Length0 && 0 <= c < grid.Length1 && id in Ids(grid[r, c], kind) :: (id, Cell(r, c))
    }

    constructor (width: int, height: int, sectorSize: int)
      requires Layout(width, height, sectorSize).Positive()
      ensures Valid() && fresh(grid) && layout == Layout(width, height, sectorSize)
      ensures Placed(Player) == {} && Placed(Monster) == {}
    {
      layout := Layout(width, height, sectorSize);
      var rows, cols := Layout(width, height, sectorSize).Rows(), Layout(width, height, sectorSize).Cols();
      CellInGrid(Layout(width, height, sectorSize), 0.0, 0.0);
      grid := new Sector[rows, cols];
      new;
      for r := 0 to rows
        invariant forall i, j :: 0 <= i < r && 0 <= j < cols ==> grid[i, j] == Sector({}, {})
      {
        for c := 0 to cols
          invariant forall i, j :: 0 <= i < r && 0 <= j < cols ==> grid[i, j] == Sector({}, {})
          invariant forall j :: 0 <= j < c ==> grid[r, j] == Sector({}, {})
        {
          grid[r, c] := Sector({}, {});
        }
      }
    }

    method GetSectorIndex(x: real, y: real) returns (ok: bool, row: int, col: int)
      requires Valid()
      ensures ok <==> layout.InMap(x, y)
      ensures ok ==> layout.CellOf(x, y) == Some(Cell(row, col))
      ensures ok ==> 0 <= row < grid.Length0 && 0 <= col < grid.Length1
    {
      row, col := 0, 0;
      if x < 0.0 || x >= layout.width as real || y < 0.0 || y >= layout.height as real {
        return false, row, col;
      }
      CellInGrid(layout, x, y);
      col := (x / layout.sectorSize as real).Floor;
      row := (y / layout.sectorSize as real).Floor;
      ok := true;
    }

    method Add(kind: Kind, id: nat, row: int, col: int)
      requires 0 <= row < grid.Length0 && 0 <= col < grid.Length1
      modifies grid
      ensures Placed(kind) == old(Placed(kind)) + {(id, Cell(row, col))}
      ensures forall k :: k != kind ==> Placed(k) == old(Placed(k))
    {
      grid[row, col] := WithIds(grid[row, col], kind, Ids(grid[row, col], kind) + {id});
    }

    method Remove(kind: Kind, id: nat, row: int, col: int)
      requires 0 <= row < grid.Length0 && 0 <= col < grid.Length1
      modifies grid
      ensures Placed(kind) == old(Placed(kind)) - {(id, Cell(row, col))}
      ensures forall k :: k != kind ==> Placed(k) == old(Placed(k))
    {
      grid[row, col] := WithIds(grid[row, col], kind, Ids(grid[row, col], kind) - {id});
    }

    method EnterZone(kind: Kind, id: nat, x: real, y: real)
      requires Valid()
      modifies grid
      ensures Placed(kind) == Enter(old(Placed(kind)), id, layout.CellOf(x, y))
      ensures forall k :: k != kind ==> Placed(k) == old(Placed(k))
    {
      var ok, row, col := GetSectorIndex(x, y);
      if ok {
        Add(kind, id, row, col);
      }
    }

    method LeaveZone(kind: Kind, id: nat, x: real, y: real)
      requires Valid()
      modifies grid
      ensures Placed(kind) == Exit(old(Placed(kind)), id, layout.CellOf(x, y))
      ensures forall k :: k != kind ==> Placed(k) == old(Placed(k))
    {
      var ok, row, col := GetSectorIndex(x, y);
      if ok {
        Remove(kind, id, row, col);
      }
    }

    /** Players: add to the new sector first, then remove from the old one. */
    method UpdatePosition(id: nat, oldX: real, oldY: real, newX: real, newY: real)
      requires Valid()
      modifies grid
      ensures Placed(Player) == Shift(old(Placed(Player)), id, layout.CellOf(oldX, oldY), layout.CellOf(newX, newY))
      ensures Placed(Monster) == old(Placed(Monster))
    {
      var okOld, oldRow, oldCol := GetSectorIndex(oldX, oldY);
      var okNew, newRow, newCol := GetSectorIndex(newX, newY);
      if okOld && okNew {
        if oldRow != newRow || oldCol != newCol {
          Add(Player, id, newRow, newCol);
          Remove(Player, id, oldRow, oldCol);
        }
      } else if okNew {
        Add(Player, id, newRow, newCol);
      }
    }

    method UpdatePositionMonster(id: nat, oldX: real, oldY: real, newX: real, newY: real)
      requires Valid()
      modifies grid
      ensures Placed(Monster)
           == ShiftMonster(old(Placed(Monster)), id, layout.CellOf(oldX, oldY), layout.CellOf(newX, newY))
      ensures Placed(Player) == old(Placed(Player))
    {
      var okOld, oldRow, oldCol := GetSectorIndex(oldX, oldY);
      var okNew, newRow, newCol := GetSectorIndex(newX, newY);
      if okOld && okNew {
        if oldRow != newRow || oldCol != newCol {
          Add(Monster, id, newRow, newCol);
          Remove(Monster, id, oldRow, oldCol);
        }
      }
    }

    /** The ids of one sector of the block, none outside the grid. */
    method SectorIds(kind: Kind, row: int, col: int) returns (out: seq<nat>)
      ensures ListsCell(out, Placed(kind), Cell(row, col))
    {
      if 0 <= row < grid.Length0 && 0 <= col < grid.Length1 {
        out := Listed(Ids(grid[row, col], kind));
      } else {
        out := [];
      }
    }

    /** The inner loop over one row of the block around `center`. */
    method AppendRow(kind: Kind, center: Cell, r: int, before: seq<nat>) returns (aoi: seq<nat>)
      requires center.row - 1 <= r <= center.row + 1
      requires Lists(before, Placed(kind), center, r, center.col - 1)
      ensures Lists(aoi, Placed(kind), center, r + 1, center.col - 1)
    {
      ghost var placed := Placed(kind);
      aoi := before;
      var c := center.col - 1;
      while c <= center.col + 1
        invariant center.col - 1 <= c <= center.col + 2
        invariant Lists(aoi, placed, center, r, c)
      {
        var here := SectorIds(kind, r, c);
        ListsStep(aoi, here, placed, center, r, c);
        aoi := aoi + here;
        c := c + 1;
      }
      ListsRow(aoi, placed, center, r);
    }

    /** The area of interest: each id as often as it has a placement in the 3x3 block. */
    method GetInAOI(kind: Kind, x: real, y: real) returns (aoi: seq<nat>)
      requires Valid()
      ensures Answers(layout, Placed(kind), x, y, aoi)
    {
      aoi := [];
      var ok, row, col := GetSectorIndex(x, y);
      if !ok {
        return;
      }
      var center := Cell(row, col);
      ListsStart(Placed(kind), center);
      var r := row - 1;
      while r <= row + 1
        invariant row - 1 <= r <= row + 2
        invariant Lists(aoi, Placed(kind), center, r, col - 1)
      {
        aoi := AppendRow(kind, center, r, aoi);
        r := r + 1;
      }
      ListsEnd(aoi, Placed(kind), center);
    }
  }
}
