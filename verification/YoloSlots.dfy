/** Where the threads of yoloForward.cu, yoloForward_nc.cu and yoloForward_v2.cu read and write:
    the output slot `count` of one tensor, and the input address. */
module YoloSlots {
  import opened GridArithmetic

  // ---------- One grid ----------

  // The coordinates z_id, y_id, x_id of a thread.
  datatype Cell = Cell(z: nat, y: nat, x: nat)

  predicate InGrid(c: Cell, n: nat, gx: nat, gy: nat) { c.z < n && c.y < gy && c.x < gx }

  // `count` without the tensor's offset; the row stride is gy.
  function Count(c: Cell, gx: nat, gy: nat): nat { c.z * gx * gy + c.y * gy + c.x }

  ghost predicate InRange(n: nat, gx: nat, gy: nat) {
    forall c: Cell | InGrid(c, n, gx, gy) :: Count(c, gx, gy) < n * gx * gy
  }

  ghost predicate Injective(n: nat, gx: nat, gy: nat) {
    forall c: Cell, d: Cell |
      InGrid(c, n, gx, gy) && InGrid(d, n, gx, gy) && Count(c, gx, gy) == Count(d, gx, gy) :: c == d
  }

  ghost predicate Onto(n: nat, gx: nat, gy: nat) {
    forall s: nat | s < n * gx * gy :: Hit(s, n, gx, gy)
  }

  ghost predicate Hit(s: nat, n: nat, gx: nat, gy: nat) {
    exists c: Cell :: InGrid(c, n, gx, gy) && Count(c, gx, gy) == s
  }

  predicate ShapeOk(n: nat, gx: nat, gy: nat) { n * gx * gy == 0 || gx == gy || gy == 1 }

  // The cell whose slot is s, when the shape is right.
  function CellAt(s: nat, gx: nat, gy: nat): Cell
    requires gy * gx > 0
  {
    var cell := s % (gy * gx);
    Cell(s / (gy * gx), cell / gx, cell % gx)
  }

  // With a right shape the row stride is as good as gx.
  lemma CountIsRowMajor(c: Cell, n: nat, gx: nat, gy: nat)
    requires InGrid(c, n, gx, gy) && (gx == gy || gy == 1)
    ensures Count(c, gx, gy) == c.z * (gy * gx) + (c.y * gx + c.x)
    ensures c.y * gx + c.x < gy * gx
    ensures Count(c, gx, gy) < n * gx * gy
  {
    PairBound(c.y, gy, c.x, gx);
    PairBound(c.z, n, c.y * gx + c.x, gy * gx);
    CountRows(c, gx, gy);
    MulAssoc(n, gx, gy);
  }

  lemma CountRows(c: Cell, gx: nat, gy: nat)
    requires gx == gy || (gy == 1 && c.y == 0)
    ensures Count(c, gx, gy) == c.z * (gy * gx) + (c.y * gx + c.x)
  {
  }

  lemma CellAtDigits(c: Cell, n: nat, gx: nat, gy: nat)
    requires InGrid(c, n, gx, gy)
    ensures gy * gx > 0 && CellAt(c.z * (gy * gx) + (c.y * gx + c.x), gx, gy) == c
  {
    PairBound(c.y, gy, c.x, gx);
    PairDigits(c.z, c.y * gx + c.x, gy * gx);
    PairDigits(c.y, c.x, gx);
  }

  lemma CellAtIsInverse(s: nat, n: nat, gx: nat, gy: nat)
    requires (gx == gy || gy == 1) && s < n * gx * gy
    ensures gy * gx > 0 && InGrid(CellAt(s, gx, gy), n, gx, gy) && Count(CellAt(s, gx, gy), gx, gy) == s
  {
    hide Count, CellAt;
    MulAssoc(n, gx, gy);
    var z, cell := PairSplit(s, n, gy * gx);
    var y, x := PairSplit(cell, gy, gx);
    CellAtDigits(Cell(z, y, x), n, gx, gy);
    CountIsRowMajor(Cell(z, y, x), n, gx, gy);
  }

  lemma CountIsInjective(c: Cell, d: Cell, n: nat, gx: nat, gy: nat)
    requires (gx == gy || gy == 1) && InGrid(c, n, gx, gy) && InGrid(d, n, gx, gy)
    requires Count(c, gx, gy) == Count(d, gx, gy)
    ensures c == d
  {
    CountIsRowMajor(c, n, gx, gy);
    CountIsRowMajor(d, n, gx, gy);
    PairUnique(c.z, c.y * gx + c.x, d.z, d.y * gx + d.x, gy * gx);
    PairUnique(c.y, c.x, d.y, d.x, gx);
  }

  // A grid wider than high: the end of one row is the start of the next.
  lemma WideGridCollides(n: nat, gx: nat, gy: nat)
    requires n >= 1 && gx > gy >= 2
    ensures InGrid(Cell(0, 0, gy), n, gx, gy) && InGrid(Cell(0, 1, 0), n, gx, gy)
    ensures Count(Cell(0, 0, gy), gx, gy) == Count(Cell(0, 1, 0), gx, gy)
  {
  }

  // A grid higher than wide: the last row of the last anchor leaves the range.
  lemma TallGridOverflows(n: nat, gx: nat, gy: nat)
    requires n >= 1 && gy > gx >= 1
    ensures InGrid(Cell(n - 1, gy - 1, gx - 1), n, gx, gy) && Count(Cell(n - 1, gy - 1, gx - 1), gx, gy) >= n * gx * gy
  {
  }

  // ... and the slot after its first row is written by no thread.
  lemma TallGridHole(c: Cell, n: nat, gx: nat, gy: nat)
    requires gy > gx >= 1 && InGrid(c, n, gx, gy)
    ensures Count(c, gx, gy) != gx
  {
  }

  /** `count` is a bijection from the launched cells onto the tensor's slots exactly when the grid is square
      or has a single row. */
  lemma ShapeCondition(n: nat, gx: nat, gy: nat)
    requires n >= 1 && gx >= 1 && gy >= 1
    ensures InRange(n, gx, gy) && Injective(n, gx, gy) && Onto(n, gx, gy) <==> gx == gy || gy == 1
    ensures gx > gy >= 2 ==> !Injective(n, gx, gy)
    ensures gy > gx ==> !InRange(n, gx, gy)
  {
    hide Count;
    if gx == gy || gy == 1 {
      forall c: Cell | InGrid(c, n, gx, gy) ensures Count(c, gx, gy) < n * gx * gy { CountIsRowMajor(c, n, gx, gy); }
      forall c: Cell, d: Cell | InGrid(c, n, gx, gy) && InGrid(d, n, gx, gy) && Count(c, gx, gy) == Count(d, gx, gy)
        ensures c == d
      {
        CountIsInjective(c, d, n, gx, gy);
      }
      forall s: nat | s < n * gx * gy ensures Hit(s, n, gx, gy) {
        CellAtIsInverse(s, n, gx, gy);
      }
    } else if gx > gy {
      WideGridCollides(n, gx, gy);
    } else {
      TallGridOverflows(n, gx, gy);
    }
  }

  // ---------- The launch ----------

  // threads_per_block and number_of_blocks along one axis.
  function Blocks(size: nat, perBlock: nat): nat
    requires perBlock > 0
  {
    size / perBlock + 1
  }

  // blockIdx * blockDim + threadIdx
  function ThreadId(block: nat, thread: nat, perBlock: nat): nat { block * perBlock + thread }

  /** Every coordinate of the grid is that of exactly one launched thread. */
  lemma LaunchCovers(size: nat, perBlock: nat, id: nat)
    requires perBlock > 0 && id < size
    ensures id / perBlock < Blocks(size, perBlock) && id % perBlock < perBlock
    ensures ThreadId(id / perBlock, id % perBlock, perBlock) == id
    ensures forall block: nat, thread: nat | thread < perBlock && ThreadId(block, thread, perBlock) == id ::
      block == id / perBlock && thread == id % perBlock
  {
    DivMod(id, perBlock);
    DivMono(id, size, perBlock);
    forall block: nat, thread: nat | thread < perBlock && ThreadId(block, thread, perBlock) == id
      ensures block == id / perBlock && thread == id % perBlock
    {
      PairUnique(block, thread, id / perBlock, id % perBlock, perBlock);
    }
  }

  // ---------- Input addresses ----------

  // Field k of cell (z, y, x): bbindex + numGridCells * (z * (5 + C) + k).
  function Address(c: Cell, k: nat, gx: nat, gy: nat, classes: nat): nat {
    c.y * gx + c.x + gx * gy * (c.z * (5 + classes) + k)
  }

  function InputSize(n: nat, gx: nat, gy: nat, classes: nat): nat { n * (4 + 1 + classes) * gy * gx }

  // The address as a number of three digits: plane, row, column.
  lemma AddressDigits(c: Cell, k: nat, n: nat, gx: nat, gy: nat, classes: nat)
    requires InGrid(c, n, gx, gy) && k < 5 + classes
    ensures c.y * gx + c.x < gy * gx && c.z * (5 + classes) + k < n * (5 + classes)
    ensures Address(c, k, gx, gy, classes) == (c.z * (5 + classes) + k) * (gy * gx) + (c.y * gx + c.x)
  {
    PairBound(c.y, gy, c.x, gx);
    PairBound(c.z, n, k, 5 + classes);
    MulAssoc(c.z * (5 + classes) + k, gx, gy);
  }

  lemma InputSizeIs(n: nat, gx: nat, gy: nat, classes: nat)
    ensures InputSize(n, gx, gy, classes) == n * (5 + classes) * (gy * gx)
  {
  }

  /** For every grid shape, cells and fields correspond one to one to the tensor's input addresses: every
      address is in range, ... */
  lemma AddressBound(c: Cell, k: nat, n: nat, gx: nat, gy: nat, classes: nat)
    requires InGrid(c, n, gx, gy) && k < 5 + classes
    ensures Address(c, k, gx, gy, classes) < InputSize(n, gx, gy, classes)
  {
    hide Address, InputSize;
    AddressDigits(c, k, n, gx, gy, classes);
    InputSizeIs(n, gx, gy, classes);
    PairBound(c.z * (5 + classes) + k, n * (5 + classes), c.y * gx + c.x, gy * gx);
  }

  lemma TwoLevels(z: nat, k: nat, y: nat, x: nat, z': nat, k': nat, y': nat, x': nat, p: nat, gy: nat, gx: nat)
    requires k < p && k' < p && y < gy && y' < gy && x < gx && x' < gx
    requires (z * p + k) * (gy * gx) + (y * gx + x) == (z' * p + k') * (gy * gx) + (y' * gx + x')
    ensures z == z' && k == k' && y == y' && x == x'
  {
    PairBound(y, gy, x, gx);
    PairBound(y', gy, x', gx);
    PairUnique(z * p + k, y * gx + x, z' * p + k', y' * gx + x', gy * gx);
    PairUnique(y, x, y', x', gx);
    PairUnique(z, k, z', k', p);
  }

  /** ... no two cells or fields share one, ... */
  lemma AddressUnique(c: Cell, k: nat, d: Cell, l: nat, n: nat, gx: nat, gy: nat, classes: nat)
    requires InGrid(c, n, gx, gy) && InGrid(d, n, gx, gy) && k < 5 + classes && l < 5 + classes
    requires Address(c, k, gx, gy, classes) == Address(d, l, gx, gy, classes)
    ensures c == d && k == l
  {
    hide Address;
    AddressDigits(c, k, n, gx, gy, classes);
    AddressDigits(d, l, n, gx, gy, classes);
    TwoLevels(c.z, k, c.y, c.x, d.z, l, d.y, d.x, 5 + classes, gy, gx);
  }

  /** ... and every address below the input size is used. */
  lemma AddressOnto(a: nat, n: nat, gx: nat, gy: nat, classes: nat) returns (c: Cell, k: nat)
    requires a < InputSize(n, gx, gy, classes)
    ensures InGrid(c, n, gx, gy) && k < 5 + classes && Address(c, k, gx, gy, classes) == a
  {
    hide Address, InputSize;
    InputSizeIs(n, gx, gy, classes);
    var plane, cell := PairSplit(a, n * (5 + classes), gy * gx);
    var z, field := PairSplit(plane, n, 5 + classes);
    var y, x := PairSplit(cell, gy, gx);
    c, k := Cell(z, y, x), field;
    AddressDigits(c, k, n, gx, gy, classes);
  }
}
