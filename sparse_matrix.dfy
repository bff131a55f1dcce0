/// The generic sparse-matrix layer of Chrono: an abstract element store whose
/// only write primitive is SetElement (store, or accumulate), and the block
/// paste algorithms that every sparse backend inherits from it.
///
/// The store is a map from (row, column) to a value; a position that is not
/// a key reads as zero.  A dense block is a rectangular sequence of rows.
module SparseMatrix {

  datatype Option<T> = None | Some(value: T)

  /// Advisory symmetry classification; never enforced by the element access.
  datatype SymmetryType = General | SymmetricPosDef | SymmetricIndef | StructuralSymmetric

  /// The stored entries of a sparse matrix.
  type Cells = map<(int, int), real>

  /// A dense block (the pasted matrix), row by row.
  type Block = seq<seq<real>>

  /// The value at (row, col): sparse absence reads as zero.
  function Lookup(m: Cells, row: int, col: int): real {
    if (row, col) in m then m[(row, col)] else 0.0
  }

  function Rows(b: Block): nat { |b| }

  function Cols(b: Block): nat { if |b| == 0 then 0 else |b[0]| }

  /// Every row of the block has the same number of columns.
  predicate Rectangular(b: Block) {
    forall i :: 0 <= i < |b| ==> |b[i]| == Cols(b)
  }

  /// The block with rows and columns exchanged: Cols(b) rows of Rows(b) entries.
  function Transpose(b: Block): (t: Block)
    requires Rectangular(b)
    ensures |t| == Cols(b)
    ensures forall i :: 0 <= i < |t| ==> |t[i]| == Rows(b)
    ensures forall i, j :: 0 <= i < Cols(b) && 0 <= j < Rows(b) ==> t[i][j] == b[j][i]
  {
    seq(Cols(b), i requires 0 <= i < Cols(b) =>
      seq(Rows(b), j requires 0 <= j < Rows(b) => b[j][i]))
  }

  /// The requirement of a clipped paste: when the window is not empty, it lies inside the block.
  predicate ClipInside(b: Block, cliprow: int, clipcol: int, nrows: int, ncolumns: int) {
    nrows <= 0 || ncolumns <= 0 ||
    (0 <= cliprow && cliprow + nrows <= Rows(b) && 0 <= clipcol && clipcol + ncolumns <= Cols(b))
  }

  /// The nrows-by-ncolumns window of the block whose corner is at (cliprow, clipcol);
  /// a negative extent gives an empty window, as the source's loops run zero times.
  function Window(b: Block, cliprow: int, clipcol: int, nrows: int, ncolumns: int): (w: Block)
    requires Rectangular(b) && ClipInside(b, cliprow, clipcol, nrows, ncolumns)
    ensures |w| == if nrows < 0 then 0 else nrows
    ensures forall i :: 0 <= i < |w| ==> |w[i]| == if ncolumns < 0 then 0 else ncolumns
    ensures forall i, j :: 0 <= i < nrows && 0 <= j < ncolumns ==> w[i][j] == b[cliprow + i][clipcol + j]
  {
    var nr := if nrows < 0 then 0 else nrows;
    var nc := if ncolumns < 0 then 0 else ncolumns;
    seq(nr, i requires 0 <= i < nr =>
      seq(nc, j requires 0 <= j < nc => b[cliprow + i][clipcol + j]))
  }

  // ---------------------------------------------------------------------------
  // SetElement and sequences of SetElement calls
  // ---------------------------------------------------------------------------

  /// One call SetElement(row, col, val, overwrite).
  datatype Write = Write(row: int, col: int, val: real)

  function Target(w: Write): (int, int) { (w.row, w.col) }

  /// The value a cell holds after SetElement puts v on top of its current value.
  function Combine(current: real, v: real, overwrite: bool): real {
    if overwrite then v else current + v
  }

  /// SetElement: store the value when overwrite is set, add it to the current value otherwise.
  function Store(m: Cells, w: Write, overwrite: bool): (m': Cells)
    ensures m'.Keys == m.Keys + {Target(w)}
    ensures Lookup(m', w.row, w.col) == Combine(Lookup(m, w.row, w.col), w.val, overwrite)
    ensures forall k :: k in m && k != Target(w) ==> m'[k] == m[k]
  {
    m[(w.row, w.col) := Combine(Lookup(m, w.row, w.col), w.val, overwrite)]
  }

  /// The store after the calls ws, made in order, all with the same overwrite flag.
  function Apply(m: Cells, ws: seq<Write>, overwrite: bool): Cells
    decreases |ws|
  {
    if ws == [] then m else Store(Apply(m, ws[..|ws| - 1], overwrite), ws[|ws| - 1], overwrite)
  }

  /// No two calls of ws target the same cell.
  ghost predicate DistinctTargets(ws: seq<Write>) {
    forall k1, k2 :: 0 <= k1 < k2 < |ws| ==> Target(ws[k1]) != Target(ws[k2])
  }

  // ---------------------------------------------------------------------------
  // The call trace of a paste, over the grid of values it places
  // ---------------------------------------------------------------------------

  /// Whether a value is written under the zero-skipping policy.
  function Kept(v: real, skipZeros: bool): bool { !(skipZeros && v == 0.0) }

  /// The calls the inner loop makes for grid row i, over its first n columns.
  function RowWrites(g: Block, insrow: int, inscol: int, skipZeros: bool, i: nat, n: nat): seq<Write>
    requires i < |g| && n <= |g[i]|
  {
    if n == 0 then []
    else
      RowWrites(g, insrow, inscol, skipZeros, i, n - 1) +
      (if Kept(g[i][n - 1], skipZeros) then [Write(insrow + i, inscol + n - 1, g[i][n - 1])] else [])
  }

  /// The calls the two nested loops make for the first n grid rows.
  function GridWrites(g: Block, insrow: int, inscol: int, skipZeros: bool, n: nat): seq<Write>
    requires n <= |g|
  {
    if n == 0 then []
    else GridWrites(g, insrow, inscol, skipZeros, n - 1) + RowWrites(g, insrow, inscol, skipZeros, n - 1, |g[n - 1]|)
  }

  /// The whole trace of a paste of grid g at (insrow, inscol).
  function AllWrites(g: Block, insrow: int, inscol: int, skipZeros: bool): seq<Write> {
    GridWrites(g, insrow, inscol, skipZeros, |g|)
  }

  /// The value the first n grid rows put at (r, c), if any.
  function LandingIn(g: Block, insrow: int, inscol: int, skipZeros: bool, n: nat, r: int, c: int): Option<real>
    requires n <= |g|
  {
    var i, j := r - insrow, c - inscol;
    if 0 <= i < n && 0 <= j < |g[i]| && Kept(g[i][j], skipZeros) then Some(g[i][j]) else None
  }

  function Landing(g: Block, insrow: int, inscol: int, skipZeros: bool, r: int, c: int): Option<real> {
    LandingIn(g, insrow, inscol, skipZeros, |g|, r, c)
  }

  /// The value a cell holds after a paste that lands `landing` on it.
  function Written(m: Cells, landing: Option<real>, overwrite: bool, r: int, c: int): real {
    match landing
    case None => Lookup(m, r, c)
    case Some(v) => Combine(Lookup(m, r, c), v, overwrite)
  }

  lemma {:induction false} ApplyAppend(m: Cells, xs: seq<Write>, ys: seq<Write>, overwrite: bool)
    ensures Apply(m, xs + ys, overwrite) == Apply(Apply(m, xs, overwrite), ys, overwrite)
    decreases |ys|
  {
    if ys == [] {
      assert xs + ys == xs;
    } else {
      var ys' := ys[..|ys| - 1];
      assert (xs + ys)[..|xs + ys| - 1] == xs + ys';
      assert (xs + ys)[|xs + ys| - 1] == ys[|ys| - 1];
      ApplyAppend(m, xs, ys', overwrite);
    }
  }

  /// One visit of the nested loops: grid cell (i, j) is written unless it is a skipped zero.
  function Step(cur: Cells, g: Block, insrow: int, inscol: int, skipZeros: bool, overwrite: bool, i: nat, j: nat): Cells
    requires i < |g| && j < |g[i]|
  {
    if Kept(g[i][j], skipZeros) then Store(cur, Write(insrow + i, inscol + j, g[i][j]), overwrite) else cur
  }

  /// The store after the nested loops have visited the first i grid rows and the first j
  /// cells of row i, one call at a time.
  function Visited(m: Cells, g: Block, insrow: int, inscol: int, skipZeros: bool, overwrite: bool, i: nat, j: nat): Cells
    requires i <= |g| && (i < |g| ==> j <= |g[i]|) && (i == |g| ==> j == 0)
    decreases i, j
  {
    if j > 0 then Step(Visited(m, g, insrow, inscol, skipZeros, overwrite, i, j - 1), g, insrow, inscol, skipZeros, overwrite, i, j - 1)
    else if i > 0 then Visited(m, g, insrow, inscol, skipZeros, overwrite, i - 1, |g[i - 1]|)
    else m
  }

  lemma ApplySnoc(m: Cells, ws: seq<Write>, w: Write, overwrite: bool)
    ensures Apply(m, ws + [w], overwrite) == Store(Apply(m, ws, overwrite), w, overwrite)
  {
    assert (ws + [w])[..|ws|] == ws;
  }

  /// The trace grows by one call at a visited cell, unless that cell is a skipped zero.
  lemma RowSnoc(g: Block, insrow: int, inscol: int, skipZeros: bool, i: nat, j: nat)
    requires i < |g| && j < |g[i]|
    ensures var front := GridWrites(g, insrow, inscol, skipZeros, i);
      front + RowWrites(g, insrow, inscol, skipZeros, i, j + 1) ==
        (front + RowWrites(g, insrow, inscol, skipZeros, i, j)) +
        (if Kept(g[i][j], skipZeros) then [Write(insrow + i, inscol + j, g[i][j])] else [])
  {
  }

  lemma VisitedStep(m: Cells, g: Block, insrow: int, inscol: int, skipZeros: bool, overwrite: bool, i: nat, j: nat)
    requires i < |g| && j < |g[i]|
    requires Visited(m, g, insrow, inscol, skipZeros, overwrite, i, j) ==
      Apply(m, GridWrites(g, insrow, inscol, skipZeros, i) + RowWrites(g, insrow, inscol, skipZeros, i, j), overwrite)
    ensures Visited(m, g, insrow, inscol, skipZeros, overwrite, i, j + 1) ==
      Apply(m, GridWrites(g, insrow, inscol, skipZeros, i) + RowWrites(g, insrow, inscol, skipZeros, i, j + 1), overwrite)
  {
    var done := GridWrites(g, insrow, inscol, skipZeros, i) + RowWrites(g, insrow, inscol, skipZeros, i, j);
    RowSnoc(g, insrow, inscol, skipZeros, i, j);
    if Kept(g[i][j], skipZeros) {
      ApplySnoc(m, done, Write(insrow + i, inscol + j, g[i][j]), overwrite);
    } else {
      assert done + [] == done;
    }
  }

  /// Visiting the first j cells of grid row i is applying the trace up to that cell.
  lemma {:induction false} VisitedRow(m: Cells, g: Block, insrow: int, inscol: int, skipZeros: bool, overwrite: bool, i: nat, j: nat)
    requires i < |g| && j <= |g[i]|
    ensures Visited(m, g, insrow, inscol, skipZeros, overwrite, i, j) ==
      Apply(m, GridWrites(g, insrow, inscol, skipZeros, i) + RowWrites(g, insrow, inscol, skipZeros, i, j), overwrite)
    decreases i, j, 1
  {
    if j == 0 {
      VisitedRows(m, g, insrow, inscol, skipZeros, overwrite, i);
      assert GridWrites(g, insrow, inscol, skipZeros, i) + RowWrites(g, insrow, inscol, skipZeros, i, 0) ==
        GridWrites(g, insrow, inscol, skipZeros, i);
    } else {
      VisitedRow(m, g, insrow, inscol, skipZeros, overwrite, i, j - 1);
      VisitedStep(m, g, insrow, inscol, skipZeros, overwrite, i, j - 1);
    }
  }

  /// Visiting the first i grid rows is applying the trace of those rows.
  lemma {:induction false} VisitedRows(m: Cells, g: Block, insrow: int, inscol: int, skipZeros: bool, overwrite: bool, i: nat)
    requires i <= |g|
    ensures Visited(m, g, insrow, inscol, skipZeros, overwrite, i, 0) == Apply(m, GridWrites(g, insrow, inscol, skipZeros, i), overwrite)
    decreases i, 0, 0
  {
    if i > 0 {
      VisitedRow(m, g, insrow, inscol, skipZeros, overwrite, i - 1, |g[i - 1]|);
    }
  }

  /// One row of the trace writes its kept values, at row insrow + i, and nothing else.
  lemma {:induction false} RowWritesCell(m: Cells, g: Block, insrow: int, inscol: int, skipZeros: bool,
                                         i: nat, n: nat, overwrite: bool, r: int, c: int)
    requires i < |g| && n <= |g[i]|
    ensures var m' := Apply(m, RowWrites(g, insrow, inscol, skipZeros, i, n), overwrite);
      var hit := r == insrow + i && inscol <= c < inscol + n && Kept(g[i][c - inscol], skipZeros);
      && Lookup(m', r, c) == (if hit then Combine(Lookup(m, r, c), g[i][c - inscol], overwrite) else Lookup(m, r, c))
      && ((r, c) in m' <==> (r, c) in m || hit)
  {
    if n > 0 {
      var front := RowWrites(g, insrow, inscol, skipZeros, i, n - 1);
      var tail := if Kept(g[i][n - 1], skipZeros) then [Write(insrow + i, inscol + n - 1, g[i][n - 1])] else [];
      ApplyAppend(m, front, tail, overwrite);
      RowWritesCell(m, g, insrow, inscol, skipZeros, i, n - 1, overwrite, r, c);
      if tail != [] {
        assert tail[..0] == [];
      }
    }
  }

  /// Main paste theorem: after the trace of the first n grid rows, each cell holds its
  /// old value combined with the value landing on it, and becomes a key exactly when
  /// something lands on it.
  lemma {:induction false} GridWritesCell(m: Cells, g: Block, insrow: int, inscol: int, skipZeros: bool,
                                          n: nat, overwrite: bool, r: int, c: int)
    requires n <= |g|
    ensures var m' := Apply(m, GridWrites(g, insrow, inscol, skipZeros, n), overwrite);
      var landing := LandingIn(g, insrow, inscol, skipZeros, n, r, c);
      && Lookup(m', r, c) == Written(m, landing, overwrite, r, c)
      && ((r, c) in m' <==> (r, c) in m || landing.Some?)
  {
    if n > 0 {
      var front := GridWrites(g, insrow, inscol, skipZeros, n - 1);
      var row := RowWrites(g, insrow, inscol, skipZeros, n - 1, |g[n - 1]|);
      ApplyAppend(m, front, row, overwrite);
      GridWritesCell(m, g, insrow, inscol, skipZeros, n - 1, overwrite, r, c);
      RowWritesCell(Apply(m, front, overwrite), g, insrow, inscol, skipZeros, n - 1, |g[n - 1]|, overwrite, r, c);
    }
  }

  lemma {:induction false} RowWritesShape(g: Block, insrow: int, inscol: int, skipZeros: bool, i: nat, n: nat)
    requires i < |g| && n <= |g[i]|
    ensures var ws := RowWrites(g, insrow, inscol, skipZeros, i, n);
      && DistinctTargets(ws)
      && forall k :: 0 <= k < |ws| ==> ws[k].row == insrow + i && inscol <= ws[k].col < inscol + n
  {
    if n > 0 {
      RowWritesShape(g, insrow, inscol, skipZeros, i, n - 1);
    }
  }

  /// Distinct grid cells go to distinct matrix cells: no cell is written twice by one
  /// paste, so the result does not depend on the order of the calls.
  lemma {:induction false} GridWritesDistinct(g: Block, insrow: int, inscol: int, skipZeros: bool, n: nat)
    requires n <= |g|
    ensures var ws := GridWrites(g, insrow, inscol, skipZeros, n);
      && DistinctTargets(ws)
      && forall k :: 0 <= k < |ws| ==> insrow <= ws[k].row < insrow + n
  {
    if n > 0 {
      GridWritesDistinct(g, insrow, inscol, skipZeros, n - 1);
      RowWritesShape(g, insrow, inscol, skipZeros, n - 1, |g[n - 1]|);
    }
  }

  /// The calls of a paste are exactly the (cell, value) pairs that land.
  lemma {:induction false} GridWritesExact(g: Block, insrow: int, inscol: int, skipZeros: bool, n: nat, w: Write)
    requires n <= |g|
    ensures w in GridWrites(g, insrow, inscol, skipZeros, n) <==> LandingIn(g, insrow, inscol, skipZeros, n, w.row, w.col) == Some(w.val)
  {
    if n > 0 {
      GridWritesExact(g, insrow, inscol, skipZeros, n - 1, w);
      RowWritesExact(g, insrow, inscol, skipZeros, n - 1, |g[n - 1]|, w);
    }
  }

  lemma {:induction false} RowWritesExact(g: Block, insrow: int, inscol: int, skipZeros: bool, i: nat, n: nat, w: Write)
    requires i < |g| && n <= |g[i]|
    ensures w in RowWrites(g, insrow, inscol, skipZeros, i, n) <==>
      (w.row == insrow + i && inscol <= w.col < inscol + n && Kept(g[i][w.col - inscol], skipZeros) && w.val == g[i][w.col - inscol])
  {
    if n > 0 {
      RowWritesExact(g, insrow, inscol, skipZeros, i, n - 1, w);
    }
  }

  /// Pasting the same grid twice in store mode leaves what one paste left.
  lemma PasteTwiceStore(m: Cells, g: Block, insrow: int, inscol: int, skipZeros: bool)
    ensures var ws := AllWrites(g, insrow, inscol, skipZeros);
      Apply(Apply(m, ws, true), ws, true) == Apply(m, ws, true)
  {
    var ws := AllWrites(g, insrow, inscol, skipZeros);
    var once := Apply(m, ws, true);
    var twice := Apply(once, ws, true);
    forall r: int, c: int
      ensures ((r, c) in twice <==> (r, c) in once) && Lookup(twice, r, c) == Lookup(once, r, c)
    {
      GridWritesCell(m, g, insrow, inscol, skipZeros, |g|, true, r, c);
      GridWritesCell(once, g, insrow, inscol, skipZeros, |g|, true, r, c);
    }
    forall k: (int, int) ensures (k in twice <==> k in once) && (k in once ==> twice[k] == once[k]) {
      assert k == (k.0, k.1);
      assert Lookup(twice, k.0, k.1) == Lookup(once, k.0, k.1);
    }
  }

  /// Pasting the same grid twice in accumulate mode adds each landing value twice.
  lemma PasteTwiceAdd(m: Cells, g: Block, insrow: int, inscol: int, skipZeros: bool, r: int, c: int)
    ensures var ws := AllWrites(g, insrow, inscol, skipZeros);
      Lookup(Apply(Apply(m, ws, false), ws, false), r, c) ==
        match Landing(g, insrow, inscol, skipZeros, r, c)
        case None => Lookup(m, r, c)
        case Some(v) => Lookup(m, r, c) + 2.0 * v
  {
    var ws := AllWrites(g, insrow, inscol, skipZeros);
    GridWritesCell(m, g, insrow, inscol, skipZeros, |g|, false, r, c);
    GridWritesCell(Apply(m, ws, false), g, insrow, inscol, skipZeros, |g|, false, r, c);
  }

  // ---------------------------------------------------------------------------
  // PasteMatrix and PasteClippedMatrix in terms of the pasted block
  // ---------------------------------------------------------------------------

  /// The grid that PasteMatrix walks: the block itself, or its transpose.
  function Placed(b: Block, transp: bool): Block
    requires Rectangular(b)
  {
    if transp then Transpose(b) else b
  }

  /// The SetElement calls PasteMatrix makes, in the order it makes them.
  function PasteWrites(b: Block, insrow: int, inscol: int, transp: bool): seq<Write>
    requires Rectangular(b)
  {
    AllWrites(Placed(b, transp), insrow, inscol, true)
  }

  /// The SetElement calls PasteClippedMatrix makes, in the order it makes them.
  function ClipWrites(b: Block, cliprow: int, clipcol: int, nrows: int, ncolumns: int, insrow: int, inscol: int): seq<Write>
    requires Rectangular(b) && ClipInside(b, cliprow, clipcol, nrows, ncolumns)
  {
    AllWrites(Window(b, cliprow, clipcol, nrows, ncolumns), insrow, inscol, false)
  }

  /// Reference placement of PasteMatrix, read off the block: entry b[i][j] lands at
  /// (insrow + i, inscol + j), or at (insrow + j, inscol + i) when transposed, unless it is zero.
  function PasteLanding(b: Block, insrow: int, inscol: int, transp: bool, r: int, c: int): Option<real>
    requires Rectangular(b)
  {
    var i := if transp then c - inscol else r - insrow;
    var j := if transp then r - insrow else c - inscol;
    if 0 <= i < Rows(b) && 0 <= j < Cols(b) && b[i][j] != 0.0 then Some(b[i][j]) else None
  }

  /// Reference placement of PasteClippedMatrix: every window cell lands, zeros included.
  function ClipLanding(b: Block, cliprow: int, clipcol: int, nrows: int, ncolumns: int,
                       insrow: int, inscol: int, r: int, c: int): Option<real>
    requires Rectangular(b) && ClipInside(b, cliprow, clipcol, nrows, ncolumns)
  {
    var i, j := r - insrow, c - inscol;
    if 0 <= i < nrows && 0 <= j < ncolumns then Some(b[cliprow + i][clipcol + j]) else None
  }

  lemma PasteLandingAgrees(b: Block, insrow: int, inscol: int, transp: bool, r: int, c: int)
    requires Rectangular(b)
    ensures Landing(Placed(b, transp), insrow, inscol, true, r, c) == PasteLanding(b, insrow, inscol, transp, r, c)
  {
  }

  /// PasteMatrix, cell by cell: a nonzero entry is stored or added at its target, and every
  /// other cell (outside the footprint, or under a zero entry) keeps its value and does not
  /// become a stored entry: a paste never clears a cell and never creates fill-in for zeros.
  lemma PasteMatrixCell(m: Cells, b: Block, insrow: int, inscol: int, overwrite: bool, transp: bool, r: int, c: int)
    requires Rectangular(b)
    ensures var m' := Apply(m, PasteWrites(b, insrow, inscol, transp), overwrite);
      var landing := PasteLanding(b, insrow, inscol, transp, r, c);
      && Lookup(m', r, c) == Written(m, landing, overwrite, r, c)
      && ((r, c) in m' <==> (r, c) in m || landing.Some?)
  {
    var g := Placed(b, transp);
    GridWritesCell(m, g, insrow, inscol, true, |g|, overwrite, r, c);
    PasteLandingAgrees(b, insrow, inscol, transp, r, c);
  }

  /// Where a block entry goes: b[a][e] is written at (insrow + a, inscol + e), or at
  /// (insrow + e, inscol + a) when transposed (the row offset pairs with the column index).
  lemma PasteEntryTarget(m: Cells, b: Block, insrow: int, inscol: int, overwrite: bool, transp: bool, a: int, e: int)
    requires Rectangular(b) && 0 <= a < Rows(b) && 0 <= e < Cols(b)
    ensures var r := if transp then insrow + e else insrow + a;
      var c := if transp then inscol + a else inscol + e;
      var m' := Apply(m, PasteWrites(b, insrow, inscol, transp), overwrite);
      && Lookup(m', r, c) == (if b[a][e] != 0.0 then Combine(Lookup(m, r, c), b[a][e], overwrite) else Lookup(m, r, c))
      && (b[a][e] == 0.0 ==> ((r, c) in m' <==> (r, c) in m))
  {
    var r := if transp then insrow + e else insrow + a;
    var c := if transp then inscol + a else inscol + e;
    PasteMatrixCell(m, b, insrow, inscol, overwrite, transp, r, c);
  }

  /// The SetElement calls of PasteMatrix: each nonzero entry exactly once, with its value
  /// at its target, and no zero entry at all.
  lemma PasteWritesExact(b: Block, insrow: int, inscol: int, transp: bool, w: Write)
    requires Rectangular(b)
    ensures DistinctTargets(PasteWrites(b, insrow, inscol, transp))
    ensures w in PasteWrites(b, insrow, inscol, transp) <==> PasteLanding(b, insrow, inscol, transp, w.row, w.col) == Some(w.val)
  {
    var g := Placed(b, transp);
    GridWritesDistinct(g, insrow, inscol, true, |g|);
    GridWritesExact(g, insrow, inscol, true, |g|, w);
    PasteLandingAgrees(b, insrow, inscol, transp, w.row, w.col);
  }

  /// PasteClippedMatrix, cell by cell: every cell of the window receives its block value,
  /// zeros included, and becomes a stored entry; cells outside the window are untouched.
  lemma ClippedCell(m: Cells, b: Block, cliprow: int, clipcol: int, nrows: int, ncolumns: int,
                    insrow: int, inscol: int, overwrite: bool, r: int, c: int)
    requires Rectangular(b) && ClipInside(b, cliprow, clipcol, nrows, ncolumns)
    ensures var m' := Apply(m, ClipWrites(b, cliprow, clipcol, nrows, ncolumns, insrow, inscol), overwrite);
      var landing := ClipLanding(b, cliprow, clipcol, nrows, ncolumns, insrow, inscol, r, c);
      && Lookup(m', r, c) == Written(m, landing, overwrite, r, c)
      && ((r, c) in m' <==> (r, c) in m || landing.Some?)
  {
    var g := Window(b, cliprow, clipcol, nrows, ncolumns);
    GridWritesCell(m, g, insrow, inscol, false, |g|, overwrite, r, c);
  }

  /// A storing clipped paste leaves the window's values in place, zeros included, each as
  /// a stored entry.
  lemma ClippedWindowStore(m: Cells, b: Block, cliprow: int, clipcol: int, nrows: int, ncolumns: int,
                           insrow: int, inscol: int, i: int, j: int)
    requires Rectangular(b) && ClipInside(b, cliprow, clipcol, nrows, ncolumns)
    requires 0 <= i < nrows && 0 <= j < ncolumns
    ensures var m' := Apply(m, ClipWrites(b, cliprow, clipcol, nrows, ncolumns, insrow, inscol), true);
      && (insrow + i, inscol + j) in m'
      && Lookup(m', insrow + i, inscol + j) == b[cliprow + i][clipcol + j]
  {
    ClippedCell(m, b, cliprow, clipcol, nrows, ncolumns, insrow, inscol, true, insrow + i, inscol + j);
  }

  /// In accumulate mode the zero-skipping policy is not observable in the values: summing the
  /// whole block as a clipped window gives the same values as PasteSumMatrix (it differs only
  /// in the stored entries it creates for zeros).
  lemma SumClippedWholeMatchesSum(m: Cells, b: Block, insrow: int, inscol: int, r: int, c: int)
    requires Rectangular(b)
    ensures Lookup(Apply(m, ClipWrites(b, 0, 0, Rows(b), Cols(b), insrow, inscol), false), r, c) ==
            Lookup(Apply(m, PasteWrites(b, insrow, inscol, false), false), r, c)
  {
    ClippedCell(m, b, 0, 0, Rows(b), Cols(b), insrow, inscol, false, r, c);
    PasteMatrixCell(m, b, insrow, inscol, false, false, r, c);
  }

  lemma PasteMatrixAllCells(m: Cells, m': Cells, b: Block, insrow: int, inscol: int, overwrite: bool, transp: bool)
    requires Rectangular(b) && m' == Apply(m, PasteWrites(b, insrow, inscol, transp), overwrite)
    ensures forall r, c :: Lookup(m', r, c) == Written(m, PasteLanding(b, insrow, inscol, transp, r, c), overwrite, r, c)
    ensures forall r, c :: (r, c) in m' <==> (r, c) in m || PasteLanding(b, insrow, inscol, transp, r, c).Some?
  {
    forall r: int, c: int {
      PasteMatrixCell(m, b, insrow, inscol, overwrite, transp, r, c);
    }
  }

  lemma ClippedAllCells(m: Cells, m': Cells, b: Block, cliprow: int, clipcol: int, nrows: int, ncolumns: int,
                        insrow: int, inscol: int, overwrite: bool)
    requires Rectangular(b) && ClipInside(b, cliprow, clipcol, nrows, ncolumns)
    requires m' == Apply(m, ClipWrites(b, cliprow, clipcol, nrows, ncolumns, insrow, inscol), overwrite)
    ensures forall r, c :: Lookup(m', r, c) == Written(m, ClipLanding(b, cliprow, clipcol, nrows, ncolumns, insrow, inscol, r, c), overwrite, r, c)
    ensures forall r, c :: (r, c) in m' <==> (r, c) in m || ClipLanding(b, cliprow, clipcol, nrows, ncolumns, insrow, inscol, r, c).Some?
  {
    forall r: int, c: int {
      ClippedCell(m, b, cliprow, clipcol, nrows, ncolumns, insrow, inscol, overwrite, r, c);
    }
  }

  // ---------------------------------------------------------------------------
  // The sparse matrix object
  // ---------------------------------------------------------------------------

  class ChSparseMatrix {
    var numRows: int
    var numCols: int
    var symmetry: SymmetryType
    /// The backend's content, as the element access sees it.
    var cells: Cells

    /// A new matrix has the given shape, the General type, and no stored entries.
    constructor (nrows: int := 0, ncols: int := 0)
      ensures GetNumRows() == nrows && GetNumColumns() == ncols
      ensures GetType() == General
      ensures cells == map[]
    {
      numRows, numCols := nrows, ncols;
      symmetry := General;
      cells := map[];
    }

    function GetNumRows(): (n: int)
      reads this
      ensures n == numRows
    {
      numRows
    }

    function GetNumColumns(): (n: int)
      reads this
      ensures n == numCols
    {
      numCols
    }

    function GetType(): (t: SymmetryType)
      reads this
      ensures t == symmetry
    {
      symmetry
    }

    method SetType(t: SymmetryType)
      modifies this
      ensures GetType() == t
      ensures numRows == old(numRows) && numCols == old(numCols) && cells == old(cells)
    {
      symmetry := t;
    }

    /// GetElement: the stored value, zero where nothing is stored.
    function GetElement(row: int, col: int): (v: real)
      reads this
      ensures (row, col) !in cells ==> v == 0.0
      ensures (row, col) in cells ==> v == cells[(row, col)]
    {
      Lookup(cells, row, col)
    }

    /// SetElement: store insval at (insrow, inscol), or add it to what is there.
    method SetElement(insrow: int, inscol: int, insval: real, overwrite: bool := true)
      modifies this
      ensures cells == Store(old(cells), Write(insrow, inscol, insval), overwrite)
      ensures GetElement(insrow, inscol) == if overwrite then insval else old(GetElement(insrow, inscol)) + insval
      ensures numRows == old(numRows) && numCols == old(numCols) && symmetry == old(symmetry)
    {
      cells := Store(cells, Write(insrow, inscol, insval), overwrite);
    }

    /// PasteMatrix: SetElement for every nonzero entry of matra, at (insrow + i, inscol + j),
    /// or at the transposed position when transp is set.
    method PasteMatrix(matra: Block, insrow: int, inscol: int, overwrite: bool := true, transp: bool := false)
      requires Rectangular(matra)
      modifies this
      ensures cells == Apply(old(cells), PasteWrites(matra, insrow, inscol, transp), overwrite)
      ensures forall r, c :: Lookup(cells, r, c) == Written(old(cells), PasteLanding(matra, insrow, inscol, transp, r, c), overwrite, r, c)
      ensures forall r, c :: (r, c) in cells <==> (r, c) in old(cells) || PasteLanding(matra, insrow, inscol, transp, r, c).Some?
      ensures numRows == old(numRows) && numCols == old(numCols) && symmetry == old(symmetry)
    {
      var maxrows := Rows(matra);
      var maxcols := Cols(matra);
      ghost var g := Placed(matra, transp);
      if transp {
        var i := 0;
        while i < maxcols
          invariant 0 <= i <= maxcols == |g|
          invariant cells == Visited(old(cells), g, insrow, inscol, true, overwrite, i, 0)
          invariant numRows == old(numRows) && numCols == old(numCols) && symmetry == old(symmetry)
        {
          var j := 0;
          while j < maxrows
            invariant 0 <= j <= maxrows == |g[i]|
            invariant cells == Visited(old(cells), g, insrow, inscol, true, overwrite, i, j)
            invariant numRows == old(numRows) && numCols == old(numCols) && symmetry == old(symmetry)
          {
            assert g[i][j] == matra[j][i];
            if matra[j][i] != 0.0 {
              SetElement(insrow + i, inscol + j, matra[j][i], overwrite);
            }
            j := j + 1;
          }
          i := i + 1;
        }
      } else {
        var i := 0;
        while i < maxrows
          invariant 0 <= i <= maxrows == |g|
          invariant cells == Visited(old(cells), g, insrow, inscol, true, overwrite, i, 0)
          invariant numRows == old(numRows) && numCols == old(numCols) && symmetry == old(symmetry)
        {
          var j := 0;
          while j < maxcols
            invariant 0 <= j <= maxcols == |g[i]|
            invariant cells == Visited(old(cells), g, insrow, inscol, true, overwrite, i, j)
            invariant numRows == old(numRows) && numCols == old(numCols) && symmetry == old(symmetry)
          {
            assert g[i][j] == matra[i][j];
            if matra[i][j] != 0.0 {
              SetElement(insrow + i, inscol + j, matra[i][j], overwrite);
            }
            j := j + 1;
          }
          i := i + 1;
        }
      }
      VisitedRows(old(cells), g, insrow, inscol, true, overwrite, |g|);
      PasteMatrixAllCells(old(cells), cells, matra, insrow, inscol, overwrite, transp);
    }

    /// PasteClippedMatrix: SetElement for every cell of the nrows-by-ncolumns window of matra
    /// at (cliprow, clipcol), zeros included, placed at (insrow, inscol).
    method PasteClippedMatrix(matra: Block, cliprow: int, clipcol: int, nrows: int, ncolumns: int,
                              insrow: int, inscol: int, overwrite: bool := true)
      requires Rectangular(matra) && ClipInside(matra, cliprow, clipcol, nrows, ncolumns)
      modifies this
      ensures cells == Apply(old(cells), ClipWrites(matra, cliprow, clipcol, nrows, ncolumns, insrow, inscol), overwrite)
      ensures forall r, c :: (Lookup(cells, r, c) ==
        Written(old(cells), ClipLanding(matra, cliprow, clipcol, nrows, ncolumns, insrow, inscol, r, c), overwrite, r, c))
      ensures forall r, c :: ((r, c) in cells <==>
        (r, c) in old(cells) || ClipLanding(matra, cliprow, clipcol, nrows, ncolumns, insrow, inscol, r, c).Some?)
      ensures numRows == old(numRows) && numCols == old(numCols) && symmetry == old(symmetry)
    {
      ghost var g := Window(matra, cliprow, clipcol, nrows, ncolumns);
      var i := 0;
      while i < nrows
        invariant 0 <= i <= |g|
        invariant cells == Visited(old(cells), g, insrow, inscol, false, overwrite, i, 0)
        invariant numRows == old(numRows) && numCols == old(numCols) && symmetry == old(symmetry)
      {
        var j := 0;
        while j < ncolumns
          invariant 0 <= j <= |g[i]|
          invariant cells == Visited(old(cells), g, insrow, inscol, false, overwrite, i, j)
          invariant numRows == old(numRows) && numCols == old(numCols) && symmetry == old(symmetry)
        {
          assert g[i][j] == matra[i + cliprow][j + clipcol];
          SetElement(insrow + i, inscol + j, matra[i + cliprow][j + clipcol], overwrite);
          j := j + 1;
        }
        i := i + 1;
      }
      VisitedRows(old(cells), g, insrow, inscol, false, overwrite, |g|);
      ClippedAllCells(old(cells), cells, matra, cliprow, clipcol, nrows, ncolumns, insrow, inscol, overwrite);
    }

    /// The base class exports no compressed-row view.
    function GetCSRRowIndexArray(): (a: Option<seq<int>>)
      ensures a == None
    {
      None
    }

    function GetCSRColIndexArray(): (a: Option<seq<int>>)
      ensures a == None
    {
      None
    }

    function GetCSRValueArray(): (a: Option<seq<real>>)
      ensures a == None
    {
      None
    }

    /// PasteTranspMatrix: PasteMatrix storing, transposed.
    method PasteTranspMatrix(matra: Block, insrow: int, inscol: int)
      requires Rectangular(matra)
      modifies this
      ensures cells == Apply(old(cells), PasteWrites(matra, insrow, inscol, true), true)
      ensures forall r, c :: Lookup(cells, r, c) == Written(old(cells), PasteLanding(matra, insrow, inscol, true, r, c), true, r, c)
      ensures numRows == old(numRows) && numCols == old(numCols) && symmetry == old(symmetry)
    {
      PasteMatrix(matra, insrow, inscol, true, true);
    }

    /// PasteSumMatrix: PasteMatrix accumulating, not transposed.
    method PasteSumMatrix(matra: Block, insrow: int, inscol: int)
      requires Rectangular(matra)
      modifies this
      ensures cells == Apply(old(cells), PasteWrites(matra, insrow, inscol, false), false)
      ensures forall r, c :: Lookup(cells, r, c) == Written(old(cells), PasteLanding(matra, insrow, inscol, false, r, c), false, r, c)
      ensures numRows == old(numRows) && numCols == old(numCols) && symmetry == old(symmetry)
    {
      PasteMatrix(matra, insrow, inscol, false, false);
    }

    /// PasteSumTranspMatrix: PasteMatrix accumulating, transposed.
    method PasteSumTranspMatrix(matra: Block, insrow: int, inscol: int)
      requires Rectangular(matra)
      modifies this
      ensures cells == Apply(old(cells), PasteWrites(matra, insrow, inscol, true), false)
      ensures forall r, c :: Lookup(cells, r, c) == Written(old(cells), PasteLanding(matra, insrow, inscol, true, r, c), false, r, c)
      ensures numRows == old(numRows) && numCols == old(numCols) && symmetry == old(symmetry)
    {
      PasteMatrix(matra, insrow, inscol, false, true);
    }

    /// PasteSumClippedMatrix: PasteClippedMatrix accumulating.
    method PasteSumClippedMatrix(matra: Block, cliprow: int, clipcol: int, nrows: int, ncolumns: int,
                                 insrow: int, inscol: int)
      requires Rectangular(matra) && ClipInside(matra, cliprow, clipcol, nrows, ncolumns)
      modifies this
      ensures cells == Apply(old(cells), ClipWrites(matra, cliprow, clipcol, nrows, ncolumns, insrow, inscol), false)
      ensures forall r, c :: (Lookup(cells, r, c) ==
        Written(old(cells), ClipLanding(matra, cliprow, clipcol, nrows, ncolumns, insrow, inscol, r, c), false, r, c))
      ensures numRows == old(numRows) && numCols == old(numCols) && symmetry == old(symmetry)
    {
      PasteClippedMatrix(matra, cliprow, clipcol, nrows, ncolumns, insrow, inscol, false);
    }
  }
}
