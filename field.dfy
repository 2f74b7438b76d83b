/**
 * The uniform spatial grid: a map from cell key to the set of objects
 * registered in that cell, with the invariant that no key maps to an empty
 * set.
 */
module Field {
  import opened Dto
  import opened Interfaces

  /** The bucket map: cell key to the objects registered in that cell. */
  type Cells = map<CellKey, set<MovingObj>>

  /** Python's floor division `a // b`, for either sign of a non-zero divisor. */
  function FloorDiv(a: int, b: int): (q: int)
    requires b != 0
    ensures b > 0 ==> b * q <= a < b * q + b
    ensures b < 0 ==> b * q + b < a <= b * q
  {
    if b > 0 then a / b else (-a) / (-b)
  }

  /** Coordinate `coord`, shifted by `offset`, lies in the grid row or column `k`. */
  ghost predicate InSlab(size: int, offset: int, coord: int, k: int)
  {
    if size > 0 then size * k <= coord + offset < size * k + size
    else size * k + size < coord + offset <= size * k
  }

  /** Floor division has exactly one result: the `q` whose interval holds `a`. */
  lemma FloorDivUnique(a: int, b: int, q: int)
    requires b != 0
    requires b > 0 ==> b * q <= a < b * q + b
    requires b < 0 ==> b * q + b < a <= b * q
    ensures FloorDiv(a, b) == q
  {
    var r := FloorDiv(a, b);
    if r > q {
      MulMono(b, r - q);
      assert false;
    } else if r < q {
      MulMono(b, q - r);
      assert false;
    }
  }

  /** For positive `b` and `d >= 1`, `b * d >= b`; for negative `b`, `b * d <= b`. */
  lemma MulMono(b: int, d: int)
    requires d >= 1
    ensures b > 0 ==> b * d >= b
    ensures b < 0 ==> b * d <= b
  {
    assert b * d == b * (d - 1) + b;
    if b > 0 {
      assert b * (d - 1) >= 0;
    } else if b < 0 {
      assert b * (d - 1) <= 0;
    }
  }

  /** The objects in cell `c`, or the empty set when the cell has no bucket. */
  function Bucket(cells: Cells, c: CellKey): set<MovingObj>
  {
    if c in cells then cells[c] else {}
  }

  /** The grid invariant: every bucket that is present is non-empty. */
  ghost predicate NoEmptyBuckets(cells: Cells)
  {
    forall c :: c in cells ==> cells[c] != {}
  }

  /** Under the invariant, a cell reads as empty exactly when it has no bucket. */
  lemma BucketEmptyIffAbsent(cells: Cells, c: CellKey)
    requires NoEmptyBuckets(cells)
    ensures Bucket(cells, c) == {} <==> c !in cells
  {
  }

  /** The bucket map after registering `o` in cell `c`. */
  function WithObj(cells: Cells, c: CellKey, o: MovingObj): (r: Cells)
    ensures r.Keys == cells.Keys + {c}
    ensures Bucket(r, c) == Bucket(cells, c) + {o}
    ensures forall d :: d != c ==> Bucket(r, d) == Bucket(cells, d)
    ensures NoEmptyBuckets(cells) ==> NoEmptyBuckets(r)
  {
    cells[c := Bucket(cells, c) + {o}]
  }

  /** The bucket map after taking `o` out of cell `c`, dropping the bucket once it is empty. */
  function WithoutObj(cells: Cells, c: CellKey, o: MovingObj): (r: Cells)
    ensures Bucket(r, c) == Bucket(cells, c) - {o}
    ensures forall d :: d != c ==> Bucket(r, d) == Bucket(cells, d)
    ensures r.Keys <= cells.Keys
    ensures NoEmptyBuckets(cells) ==> NoEmptyBuckets(r)
  {
    if c in cells then
      var rest := cells[c] - {o};
      if rest == {} then cells - {c} else cells[c := rest]
    else
      cells
  }

  /** Two bucket maps that keep the invariant and agree on every cell are equal. */
  lemma BucketsDetermine(a: Cells, b: Cells)
    requires NoEmptyBuckets(a) && NoEmptyBuckets(b)
    requires forall c :: Bucket(a, c) == Bucket(b, c)
    ensures a == b
  {
    forall c | c in a ensures c in b && a[c] == b[c] {
      assert Bucket(a, c) == a[c];
    }
    forall c | c in b ensures c in a {
      assert Bucket(b, c) == b[c];
    }
  }

  /** Registering an object that is already in the cell changes nothing (set semantics). */
  lemma WithObjPresent(cells: Cells, c: CellKey, o: MovingObj)
    requires o in Bucket(cells, c)
    ensures WithObj(cells, c, o) == cells
  {
    assert Bucket(cells, c) + {o} == cells[c];
  }

  /** Removing an object that is not in the cell changes nothing. */
  lemma WithoutObjAbsent(cells: Cells, c: CellKey, o: MovingObj)
    requires NoEmptyBuckets(cells)
    requires o !in Bucket(cells, c)
    ensures WithoutObj(cells, c, o) == cells
  {
    BucketsDetermine(WithoutObj(cells, c, o), cells);
  }

  /** Removing twice is removing once. */
  lemma WithoutObjIdempotent(cells: Cells, c: CellKey, o: MovingObj)
    ensures WithoutObj(WithoutObj(cells, c, o), c, o) == WithoutObj(cells, c, o)
  {
    if c in cells && cells[c] - {o} != {} {
      var once := WithoutObj(cells, c, o);
      assert once[c] - {o} == once[c];
      assert once[c := once[c]] == once;
    }
  }

  /** Registering an absent object and then removing it restores the bucket map. */
  lemma AddRemoveRoundTrip(cells: Cells, c: CellKey, o: MovingObj)
    requires NoEmptyBuckets(cells)
    requires o !in Bucket(cells, c)
    ensures WithoutObj(WithObj(cells, c, o), c, o) == cells
  {
    BucketsDetermine(WithoutObj(WithObj(cells, c, o), c, o), cells);
  }

  /**
   * The grid. Cell size and offsets are fixed at construction; the bucket
   * map is updated in place by AddObj and RemoveObj.
   */
  class GameField {
    const cellSize: int
    const offsetX: int
    const offsetY: int
    var cells: Cells

    ghost predicate Valid()
      reads this
    {
      cellSize != 0 && NoEmptyBuckets(cells)
    }

    constructor (cellSize: int, offsetX: int, offsetY: int)
      requires cellSize != 0
      ensures Valid()
      ensures this.cellSize == cellSize && this.offsetX == offsetX && this.offsetY == offsetY
      ensures cells == map[]
    {
      this.cellSize := cellSize;
      this.offsetX := offsetX;
      this.offsetY := offsetY;
      cells := map[];
    }

    /** The cell holding point `p`: floor division of each shifted coordinate by the cell size. */
    function GetCell(p: Point): (c: CellKey)
      requires cellSize != 0
      ensures InSlab(cellSize, offsetX, p.x, c.0) && InSlab(cellSize, offsetY, p.y, c.1)
    {
      (FloorDiv(p.x + offsetX, cellSize), FloorDiv(p.y + offsetY, cellSize))
    }

    /** The objects registered in cell `c`; empty, never a failure, when the cell has no bucket. */
    function GetObjectsInCell(c: CellKey): (r: set<MovingObj>)
      reads this
      ensures c in cells ==> r == cells[c]
      ensures c !in cells ==> r == {}
    {
      Bucket(cells, c)
    }

    /** Registers `obj` in the cell of its current location and returns that cell. */
    method AddObj(obj: MovingObj) returns (cell: CellKey)
      requires Valid()
      modifies this`cells
      ensures Valid()
      ensures cell == GetCell(obj.location)
      ensures cells == WithObj(old(cells), cell, obj)
    {
      cell := GetCell(obj.location);
      if cell !in cells {
        cells := cells[cell := {}];
      }
      cells := cells[cell := cells[cell] + {obj}];
    }

    /** Takes `obj` out of `cell`, deleting the bucket when it becomes empty; silent when absent. */
    method RemoveObj(obj: MovingObj, cell: CellKey)
      requires Valid()
      modifies this`cells
      ensures Valid()
      ensures cells == WithoutObj(old(cells), cell, obj)
    {
      if cell in cells {
        cells := cells[cell := cells[cell] - {obj}];
        if cells[cell] == {} {
          cells := cells - {cell};
        }
      }
    }
  }

  /** A point is in cell `c` exactly when each shifted coordinate lies in that cell's interval. */
  lemma GetCellIff(f: GameField, p: Point, c: CellKey)
    requires f.cellSize != 0
    ensures f.GetCell(p) == c <==>
      InSlab(f.cellSize, f.offsetX, p.x, c.0) && InSlab(f.cellSize, f.offsetY, p.y, c.1)
  {
    if InSlab(f.cellSize, f.offsetX, p.x, c.0) && InSlab(f.cellSize, f.offsetY, p.y, c.1) {
      FloorDivUnique(p.x + f.offsetX, f.cellSize, c.0);
      FloorDivUnique(p.y + f.offsetY, f.cellSize, c.1);
    }
  }

  /** Two points share a cell exactly when they lie in the same grid square. */
  lemma SameCellIff(f: GameField, p: Point, q: Point)
    requires f.cellSize != 0
    ensures f.GetCell(p) == f.GetCell(q) <==>
      InSlab(f.cellSize, f.offsetX, q.x, f.GetCell(p).0) && InSlab(f.cellSize, f.offsetY, q.y, f.GetCell(p).1)
  {
    GetCellIff(f, q, f.GetCell(p));
  }
}
