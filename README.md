# Chrono core helpers: sparse-matrix paste layer, link activation, integer tuples, scalar clamps

This Dafny project models four small pieces of the Chrono multibody library and proves what
they promise.

- **Sparse-matrix paste layer** (`sparse_matrix.dfy`, module `SparseMatrix`).
  - The abstract `ChSparseMatrix` base class keeps a shape and a symmetry tag.
  - Its only write primitive is `SetElement(row, col, val, overwrite)`. It is modelled on a
    map from (row, column) to a value, where a missing key reads as zero. `SetElement`
    stores the value when `overwrite` is set and adds it otherwise.
  - `PasteMatrix` and `PasteClippedMatrix` are the source's nested loops of `SetElement`
    calls. Each is proved against two things:
    - the exact sequence of calls it makes, in the source's loop order;
    - a closed, cell-by-cell description of the result.
  - Separate lemmas prove further properties:
    - no cell is written twice in one paste;
    - zeros are skipped (or, in the clipped paste, written);
    - the transposed placement;
    - idempotence in store mode and doubling in accumulate mode.
- **Link activation gate** (`link_base.dfy`, module `LinkBase`).
  - `ChLinkBase` has three flags (`valid`, `disabled`, `broken`) that collapse into
    `IsActive`.
  - It has plain setters and the defaults of its virtual queries.
  - The link type identifiers appear as a datatype with its integer table. Two identifiers
    collide, so the table is not unique, and the collision is proved.
- **Integer tuple helpers** (`other_types.dfy`, module `OtherTypes`).
  - C++ `unsigned int`, `int` and `short` are newtypes with their 32- and 16-bit ranges.
  - The two sorting networks are proved to return a sorted permutation of their input.
  - Lexicographic `<`, `>` and `==` on `uvec3` are proved to form a strict total order, via
    a base-2^32 key.
  - `uvec3` subtraction wraps modulo 2^32, and the proof shows that adding back undoes it.
  - The `int2`/`vec3` classes have constructors, indexed access and assignment. Indexed
    access reads and writes the shared storage that the source's unions give the named
    fields.
- **Scalar helpers** (`real_scalar.dfy`, module `RealScalar`).
  - `Sign`, `Swap`, `Clamp`, `ClampMin` and `ClampMax` are modelled over exact reals, with
    `Min`/`Max` for `fmin`/`fmax`.
  - Only comparisons are involved, so NaN is the one float behaviour the model does not
    cover.

Modelling choices:

- `SetElement`, `GetElement`, `Reset` and `Resize` are pure virtual in the source. The map
  semantics above is the one the `overwrite` parameter names.
- The dense block `ChMatrix` is a rectangular `seq<seq<real>>`.
- `Sort(uint4)` performs six guarded `Swap`s in line. The model writes each one as a call of
  `SwapIfGreater`, whose body is exactly that guarded `Swap`. The behaviour is the same.
- `SwapIfGreater` itself is defined in a header that is not part of this model. It is taken
  to swap exactly when its first argument is the greater.
- `_make_int2` returns an `int2` by value. The model returns a fresh `Int2` object.

## Model

| member | source | states |
|---|---|---|
| SparseMatrix.Store | src/chrono/core/ChSparseMatrix.h:45 | one SetElement call makes its target a stored entry and leaves there the new value (overwrite) or the old value plus the new one (accumulate); every other stored cell keeps its value and no other key is added |
| SparseMatrix.Transpose | src/chrono/core/ChSparseMatrix.h:57-63 | the transposed block has cols(B) rows of rows(B) entries, with entry (i, j) equal to B[j][i] |
| SparseMatrix.Window | src/chrono/core/ChSparseMatrix.h:83-85 | the clipped window has nrows by ncolumns entries (none for a non-positive extent), with entry (i, j) equal to B[cliprow+i][clipcol+j] |
| SparseMatrix.ChSparseMatrix.constructor | src/chrono/core/ChSparseMatrix.h:36 | a new matrix has the given row and column counts (default 0), type GENERAL and no stored entries |
| SparseMatrix.ChSparseMatrix.GetNumRows | src/chrono/core/ChSparseMatrix.h:39 | reports the row count set by the constructor, which no operation of the class changes |
| SparseMatrix.ChSparseMatrix.GetNumColumns | src/chrono/core/ChSparseMatrix.h:40 | reports the column count set by the constructor, which no operation of the class changes |
| SparseMatrix.ChSparseMatrix.GetType | src/chrono/core/ChSparseMatrix.h:43 | reports the symmetry type: GENERAL after construction, the last value given to SetType afterwards |
| SparseMatrix.ChSparseMatrix.SetType | src/chrono/core/ChSparseMatrix.h:42-43 | after SetType(t), GetType returns t; shape and contents are unchanged |
| SparseMatrix.ChSparseMatrix.GetElement | src/chrono/core/ChSparseMatrix.h:46 | reads the stored value, and zero where nothing is stored |
| SparseMatrix.ChSparseMatrix.SetElement | src/chrono/core/ChSparseMatrix.h:45 | the new contents are the old ones with the single Store applied; the element then reads insval (overwrite) or the old value plus insval; shape and type are unchanged |
| SparseMatrix.ChSparseMatrix.PasteMatrix | src/chrono/core/ChSparseMatrix.h:52-72 | the result is the old contents after the source's exact SetElement call sequence; each cell holds its old value combined with the nonzero entry landing on it (B[r-insrow][c-inscol], or B[c-inscol][r-insrow] when transposed), or its old value when none lands; a cell becomes stored exactly when it was stored or a nonzero lands on it; shape and type are unchanged |
| SparseMatrix.ChSparseMatrix.PasteClippedMatrix | src/chrono/core/ChSparseMatrix.h:75-86 | the result is the old contents after the exact SetElement call sequence over the window; every cell of the nrows by ncolumns target receives B[cliprow+i][clipcol+j], zeros included, and becomes stored; every other cell is unchanged; shape and type are unchanged |
| SparseMatrix.ChSparseMatrix.GetCSRRowIndexArray | src/chrono/core/ChSparseMatrix.h:88 | the base class has no row index array (null) |
| SparseMatrix.ChSparseMatrix.GetCSRColIndexArray | src/chrono/core/ChSparseMatrix.h:89 | the base class has no column index array (null) |
| SparseMatrix.ChSparseMatrix.GetCSRValueArray | src/chrono/core/ChSparseMatrix.h:90 | the base class has no value array (null) |
| SparseMatrix.ChSparseMatrix.PasteTranspMatrix | src/chrono/core/ChSparseMatrix.h:94-96 | the same call sequence, and the same per-cell result, as PasteMatrix with overwrite and transp both set |
| SparseMatrix.ChSparseMatrix.PasteSumMatrix | src/chrono/core/ChSparseMatrix.h:97-99 | the same call sequence, and the same per-cell result, as PasteMatrix with overwrite and transp both clear |
| SparseMatrix.ChSparseMatrix.PasteSumTranspMatrix | src/chrono/core/ChSparseMatrix.h:100-102 | the same call sequence, and the same per-cell result, as PasteMatrix accumulating and transposed |
| SparseMatrix.ChSparseMatrix.PasteSumClippedMatrix | src/chrono/core/ChSparseMatrix.h:103-111 | the same call sequence, and the same per-cell result, as PasteClippedMatrix accumulating |
| SparseMatrix.GridWritesCell | src/chrono/core/ChSparseMatrix.h:57-71 | after a paste's calls, each cell holds its old value combined with the value landing on it, if any; it becomes stored exactly when it was stored or a value lands on it |
| SparseMatrix.RowWritesCell | src/chrono/core/ChSparseMatrix.h:65-70 | after one inner loop's calls, the cells of row insrow+i under kept entries are combined with their entry, and every other cell is unchanged |
| SparseMatrix.GridWritesDistinct | src/chrono/core/ChSparseMatrix.h:57-71 | the calls of one paste target pairwise distinct cells, all inside the footprint's rows |
| SparseMatrix.GridWritesExact | src/chrono/core/ChSparseMatrix.h:57-71 | a (cell, value) call is made exactly when that value lands on that cell |
| SparseMatrix.PasteWritesExact | src/chrono/core/ChSparseMatrix.h:57-71 | PasteMatrix calls SetElement exactly once per nonzero entry, with that entry's value at its target, and never for a zero; no two calls share a target |
| SparseMatrix.PasteMatrixCell | src/chrono/core/ChSparseMatrix.h:57-71 | a cell under a zero entry, or outside the footprint, keeps its value and does not become stored: a paste never clears a cell |
| SparseMatrix.PasteEntryTarget | src/chrono/core/ChSparseMatrix.h:58-61 | entry B[a][e] is written at (insrow+a, inscol+e), or at (insrow+e, inscol+a) when transposed; a zero entry leaves that cell as it was |
| SparseMatrix.PasteTwiceStore | src/chrono/core/ChSparseMatrix.h:45-52 | with overwrite, pasting the same block twice gives the same contents as pasting it once |
| SparseMatrix.PasteTwiceAdd | src/chrono/core/ChSparseMatrix.h:45-52 | without overwrite, pasting twice adds each landing value twice to the cell's old value |
| SparseMatrix.ClippedCell | src/chrono/core/ChSparseMatrix.h:83-85 | after a clipped paste, each window target holds its old value combined with B[cliprow+i][clipcol+j] and is stored; other cells are unchanged |
| SparseMatrix.ClippedWindowStore | src/chrono/core/ChSparseMatrix.h:83-85 | a storing clipped paste leaves exactly the window's values at the target region, zeros included, each as a stored entry |
| SparseMatrix.SumClippedWholeMatchesSum | src/chrono/core/ChSparseMatrix.h:75-86 | accumulating the whole block as a clipped window gives the same values as the zero-skipping PasteSumMatrix |
| SparseMatrix.PasteMatrixAllCells | src/chrono/core/ChSparseMatrix.h:52-72 | the per-cell description of PasteMatrix, for every cell at once |
| SparseMatrix.ClippedAllCells | src/chrono/core/ChSparseMatrix.h:75-86 | the per-cell description of PasteClippedMatrix, for every cell at once |
| SparseMatrix.VisitedRows | src/chrono/core/ChSparseMatrix.h:64-71 | the state after the loops have visited the first i rows, one call at a time, is the old contents after those rows' calls |
| LinkBase.TypeTag | src/chrono/physics/ChLinkBase.h:29-74 | every link type identifier lies in 0..49 |
| LinkBase.TagDeterminesKind | src/chrono/physics/ChLinkBase.h:29-74 | every identifier other than 48 belongs to at most one link kind |
| LinkBase.SharedTag | src/chrono/physics/ChLinkBase.h:70-73 | identifier 48 belongs to exactly MateXDistance and RevolutePrismatic |
| LinkBase.TagCollisions | src/chrono/physics/ChLinkBase.h:23-74 | two different kinds share an identifier if and only if they are MateXDistance and RevolutePrismatic: the identifiers are not unique |
| LinkBase.ChLinkBase.constructor | src/chrono/physics/ChLinkBase.h:96 | a new link is not broken, valid and not disabled, hence active |
| LinkBase.ChLinkBase.IsValid | src/chrono/physics/ChLinkBase.h:102 | reports the validity flag, true for a new link and the last value given to SetValid afterwards |
| LinkBase.ChLinkBase.IsDisabled | src/chrono/physics/ChLinkBase.h:107 | reports the user's disable flag, false for a new link and the last value given to SetDisabled afterwards |
| LinkBase.ChLinkBase.IsBroken | src/chrono/physics/ChLinkBase.h:112 | reports the broken flag, false for a new link and the last value given to SetBroken afterwards |
| LinkBase.ChLinkBase.IsActive | src/chrono/physics/ChLinkBase.h:121 | a link is active exactly when it is valid, not disabled and not broken |
| LinkBase.ChLinkBase.SetValid | src/chrono/physics/ChLinkBase.h:102-104 | IsValid then returns the value set; the other flags are unchanged; invalid means inactive; valid means active exactly when not disabled and not broken |
| LinkBase.ChLinkBase.SetDisabled | src/chrono/physics/ChLinkBase.h:107-109 | IsDisabled then returns the value set; the other flags are unchanged; disabled means inactive |
| LinkBase.ChLinkBase.SetBroken | src/chrono/physics/ChLinkBase.h:112-114 | IsBroken then returns the value set, in both directions; the other flags are unchanged; broken means inactive |
| LinkBase.ChLinkBase.GetType | src/chrono/physics/ChLinkBase.h:124 | the base class reports LNK_BASE, which is 29 |
| LinkBase.ChLinkBase.IsRequiringWaking | src/chrono/physics/ChLinkBase.h:148 | by default a link requires waking its bodies |
| LinkBase.ActivationTruthTable | src/chrono/physics/ChLinkBase.h:121 | for all 8 flag combinations set through the setters, IsActive equals valid and not disabled and not broken |
| LinkBase.BreakAndRepair | src/chrono/physics/ChLinkBase.h:114 | SetBroken(true) deactivates a new link, and a following SetBroken(false) makes it active again |
| OtherTypes.SwapIfGreater | src/chrono_parallel/math/other_types.h:196-198 | the two outputs are in ascending order and are the inputs, kept or exchanged |
| OtherTypes.Sort4 | src/chrono_parallel/math/other_types.h:170-193 | the result has x <= y <= z <= w, holds the same multiset of values as the input, and equals an input that is already sorted |
| OtherTypes.Sort3 | src/chrono_parallel/math/other_types.h:194-200 | the result has x <= y <= z, holds the same multiset of values as the input, and equals an input that is already sorted |
| OtherTypes.SameCounts4 | src/chrono_parallel/math/other_types.h:170-193 | two uint4 values with the same count of every value hold the same multiset of fields |
| OtherTypes.SameCounts3 | src/chrono_parallel/math/other_types.h:194-200 | two uvec3 values with the same count of every value hold the same multiset of fields |
| OtherTypes.MakeShort2 | src/chrono_parallel/math/other_types.h:132-137 | the built short2 has x = a and y = b |
| OtherTypes.MakeUVec3 | src/chrono_parallel/math/other_types.h:154-160 | the built uvec3 has x = a, y = b and z = c |
| OtherTypes.MakeUInt4 | src/chrono_parallel/math/other_types.h:162-169 | the built uint4 has x = a, y = b, z = c and w = d |
| OtherTypes.Less | src/chrono_parallel/math/other_types.h:214-234 | a smaller x decides a < b; a < b needs a.x <= b.x and a != b; with equal x and y, z decides |
| OtherTypes.Greater | src/chrono_parallel/math/other_types.h:235-255 | a larger x decides a > b; a > b needs a.x >= b.x and a != b; with equal x and y, z decides |
| OtherTypes.LessIsKeyOrder | src/chrono_parallel/math/other_types.h:214-234 | operator< holds exactly when the base-2^32 number (x, y, z) is smaller: the order is lexicographic |
| OtherTypes.KeyInjective | src/chrono_parallel/math/other_types.h:214-234 | distinct uvec3 values have distinct keys |
| OtherTypes.LessIrreflexive | src/chrono_parallel/math/other_types.h:214-234 | no value is less than itself |
| OtherTypes.LessTransitive | src/chrono_parallel/math/other_types.h:214-234 | operator< is transitive |
| OtherTypes.GreaterIsConverse | src/chrono_parallel/math/other_types.h:235-255 | a > b holds exactly when b < a |
| OtherTypes.Equal | src/chrono_parallel/math/other_types.h:256-258 | operator== holds exactly for equal values |
| OtherTypes.Trichotomy | src/chrono_parallel/math/other_types.h:214-258 | for any a and b exactly one of a < b, a == b and a > b holds |
| OtherTypes.Sub | src/chrono_parallel/math/other_types.h:201-203 | each component of a - b is congruent to the difference of the components, modulo 2^32 |
| OtherTypes.AddUndoesSub | src/chrono_parallel/math/other_types.h:201-203 | adding q back to the 32-bit difference p - q gives p |
| OtherTypes.SubThenAdd | src/chrono_parallel/math/other_types.h:201-203 | adding b back to a - b, componentwise modulo 2^32, gives a |
| OtherTypes.SubWraps | src/chrono_parallel/math/other_types.h:201-203 | a component is the plain difference when the subtrahend is not larger, and the difference plus 2^32 when it is |
| OtherTypes.Int2.Zero | src/chrono_parallel/math/other_types.h:47 | the default int2 is (0, 0) |
| OtherTypes.Int2.Splat | src/chrono_parallel/math/other_types.h:48 | int2(a) has x = y = a |
| OtherTypes.Int2.constructor | src/chrono_parallel/math/other_types.h:49 | int2(a, b) has x = a and y = b |
| OtherTypes.Int2.Copy | src/chrono_parallel/math/other_types.h:50 | the copy has the source's x and y |
| OtherTypes.Int2.At | src/chrono_parallel/math/other_types.h:52 | slot 0 is x and slot 1 is y |
| OtherTypes.Int2.SetAt | src/chrono_parallel/math/other_types.h:53 | writing through operator[] changes that slot only |
| OtherTypes.Int2.Assign | src/chrono_parallel/math/other_types.h:54-58 | assignment copies x and y |
| OtherTypes.MakeInt2 | src/chrono_parallel/math/other_types.h:139-144 | I2(a, b) is a new int2 with x = a and y = b |
| OtherTypes.Vec3.Zero | src/chrono_parallel/math/other_types.h:74 | the default vec3 is all zero, w included |
| OtherTypes.Vec3.Splat | src/chrono_parallel/math/other_types.h:75 | vec3(a) has x = y = z = a and w = 0 |
| OtherTypes.Vec3.constructor | src/chrono_parallel/math/other_types.h:76 | vec3(a, b, c) has x = a, y = b, z = c and w = 0 |
| OtherTypes.Vec3.Copy | src/chrono_parallel/math/other_types.h:77 | the copy constructor copies x, y and z and sets w to 0 |
| OtherTypes.Vec3.At | src/chrono_parallel/math/other_types.h:79 | slots 0..3 are x, y, z and w |
| OtherTypes.Vec3.SetAt | src/chrono_parallel/math/other_types.h:80 | writing through operator[] changes that slot only |
| OtherTypes.Vec3.Assign | src/chrono_parallel/math/other_types.h:89-94 | assignment copies x, y and z and leaves w untouched |
| RealScalar.Abs | src/chrono_parallel/math/real.h:111 | the result is non-negative and is x or -x |
| RealScalar.Min | src/chrono_parallel/math/real.h:123-125 | the result is at most both arguments and is one of them |
| RealScalar.Max | src/chrono_parallel/math/real.h:126-128 | the result is at least both arguments and is one of them |
| RealScalar.Sign | src/chrono_parallel/math/real.h:232-240 | the result is -1, 0 or 1; Sign(x) * x is Abs(x); it is 0 exactly for x = 0 |
| RealScalar.Swap | src/chrono_parallel/math/real.h:323-328 | the two values are exchanged |
| RealScalar.Clamp | src/chrono_parallel/math/real.h:330-336 | the result lies in [min(low, high), max(low, high)]; it is x when x lies there, otherwise the bound x violates |
| RealScalar.ClampArgumentOrder | src/chrono_parallel/math/real.h:332-334 | Clamp(x, low, high) equals Clamp(x, high, low) |
| RealScalar.ClampMin | src/chrono_parallel/math/real.h:338-341 | the result is at least low; it is x when x >= low and low otherwise |
| RealScalar.ClampMax | src/chrono_parallel/math/real.h:343-346 | the result is at most high; it is x when x <= high and high otherwise |
| RealScalar.ClampIsOneSidedTwice | src/chrono_parallel/math/real.h:330-346 | with ordered bounds, Clamp equals ClampMin applied after ClampMax |

## Left out

- Concrete `SetElement`/`GetElement`/`Reset`/`Resize` backends (src/chrono/core/ChSparseMatrix.h:45-49): these are pure virtual. `Reset` and `Resize` are not modelled, because no code states what they do (zeroing, reallocation, failure).
- Index range checks: no backend is shown, so the model lets `SetElement` accept any (row, column). It does not model out-of-range behaviour, and it does not compare the stored shape with the targets written.
- 32-bit `int` overflow of `insrow + i` and `inscol + j` in the paste loops: indices are unbounded integers.
- SetElement, PasteTwiceAdd and the other paste lemmas: matrix entries are exact reals, not C++ `double`s. Rounding when a backend accumulates is not modelled, so in doubles two accumulating pastes give `(old + v) + v`, which can differ from the proved `old + 2v` (for example old = 1e16, v = 1). NaN entries, which pass the `!= 0` test and get written, and the sign of −0.0 are not modelled either.
- The contents of the CSR arrays of the derived backends, and the `SPM_DEF_*` constants: the base class returns null, and the constants are unused.
- The `ChMatrix` dense block type: it comes from an external header. The model uses a rectangular sequence of rows.
- `ChLinkBase::GetNumCoords` (src/chrono/physics/ChLinkBase.h:127): it is pure virtual, with no base behaviour.
- The coordinate, frame and reaction getters (src/chrono/physics/ChLinkBase.h:133-142): they return `CSYSNORM`/`VNULL` from math headers that are not part of this model.
- `ArchiveOUT`/`ArchiveIN` (src/chrono/physics/ChLinkBase.h:155-158): serialization.
- The `ChLinkBase` copy constructor (src/chrono/physics/ChLinkBase.h:97): its body is not shown.
- `_make_uvec3(real3)` (src/chrono_parallel/math/other_types.h:146-152), `int2(real2)`, `vec3(real3)` and the `real2`/`real3` assignments: they truncate floating-point values.
- The SSE `__m128i` constructor, conversion and assignment (src/chrono_parallel/math/other_types.h:81-88): platform intrinsics.
- `ostream` printing (src/chrono_parallel/math/other_types.h:205-212): I/O.
- The `vec3` arithmetic and `Clamp` operators that are only declared (src/chrono_parallel/math/other_types.h:116-126): they have no body.
- The floating-point functions of real.h (libm wrappers, epsilon comparisons, lengths and normalisation, `Lerp`, degree conversion, float/double selection): they depend on rounding. Only comparison-based helpers are modelled. NaN arguments to `Min`, `Max`, `Clamp` and `Sign` are not modelled.
- Concurrency: none of the modelled code has any.
