/// Small integer tuples of the parallel math layer: the int2 and vec3 classes, the plain
/// short2, uint4 and uvec3 records, their builders, the two sorting networks and the
/// lexicographic comparisons and wrap-around subtraction on uvec3.
module OtherTypes {
  import RealScalar

  /// C++ `unsigned int`, `int` and `short` on the targets the library builds for.
  newtype u32 = n: int | 0 <= n < 0x1_0000_0000
  newtype i32 = n: int | -0x8000_0000 <= n < 0x8000_0000
  newtype i16 = n: int | -0x8000 <= n < 0x8000

  datatype Short2 = Short2(x: i16, y: i16)
  datatype UInt4 = UInt4(x: u32, y: u32, z: u32, w: u32)
  datatype UVec3 = UVec3(x: u32, y: u32, z: u32)

  // ---------------------------------------------------------------------------
  // Builders (S2, U3 and the uint4 builder): each fills a fresh record field by field.

  function MakeShort2(a: i16, b: i16): (r: Short2)
    ensures r.x == a && r.y == b
  {
    Short2(a, b)
  }

  function MakeUVec3(a: u32, b: u32, c: u32): (r: UVec3)
    ensures r.x == a && r.y == b && r.z == c
  {
    UVec3(a, b, c)
  }

  function MakeUInt4(a: u32, b: u32, c: u32, d: u32): (r: UInt4)
    ensures r.x == a && r.y == b && r.z == c && r.w == d
  {
    UInt4(a, b, c, d)
  }

  // ---------------------------------------------------------------------------
  // Sorting networks

  /// SwapIfGreater puts its two reference arguments in ascending order, exchanging them
  /// (with Swap) exactly when the first is the greater. Sort(uvec3) calls it; Sort(uint4)
  /// writes the same guarded Swap out in line six times. The header that defines
  /// SwapIfGreater is not part of this model, so this is its assumed behaviour.
  method SwapIfGreater(a: u32, b: u32) returns (a': u32, b': u32)
    ensures a' <= b'
    ensures (a' == a && b' == b) || (a' == b && b' == a)
  {
    a', b' := a, b;
    if a' > b' {
      a', b' := RealScalar.Swap(a', b');
    }
  }

  function Values4(t: UInt4): multiset<u32> {
    multiset{t.x, t.y, t.z, t.w}
  }

  /// How many of the four fields hold v.
  function Count4(t: UInt4, v: u32): nat {
    (if t.x == v then 1 else 0) + (if t.y == v then 1 else 0) +
    (if t.z == v then 1 else 0) + (if t.w == v then 1 else 0)
  }

  predicate Sorted4(t: UInt4) {
    t.x <= t.y <= t.z <= t.w
  }

  lemma Count4IsMultiplicity(t: UInt4, v: u32)
    ensures Values4(t)[v] == Count4(t, v)
  {
  }

  /// Equal counts of every value mean the same multiset of fields.
  lemma SameCounts4(t: UInt4, u: UInt4)
    requires forall v :: Count4(t, v) == Count4(u, v)
    ensures Values4(t) == Values4(u)
  {
    forall v ensures Values4(t)[v] == Values4(u)[v] {
      Count4IsMultiplicity(t, v);
      Count4IsMultiplicity(u, v);
    }
  }

  /// Sort(uint4): six compare-and-swap steps on a local copy. The first three bring the
  /// minimum to x, the next two the second smallest to y, the last orders z and w.
  method Sort4(a: UInt4) returns (t: UInt4)
    ensures Sorted4(t)
    ensures Values4(t) == Values4(a)
    ensures Sorted4(a) ==> t == a
  {
    var x, y, z, w := a.x, a.y, a.z, a.w;
    x, w := SwapIfGreater(x, w);
    x, z := SwapIfGreater(x, z);
    x, y := SwapIfGreater(x, y);
    y, w := SwapIfGreater(y, w);
    y, z := SwapIfGreater(y, z);
    z, w := SwapIfGreater(z, w);
    t := UInt4(x, y, z, w);
    assert forall v :: Count4(t, v) == Count4(a, v);
    SameCounts4(t, a);
  }

  function Values3(t: UVec3): multiset<u32> {
    multiset{t.x, t.y, t.z}
  }

  function Count3(t: UVec3, v: u32): nat {
    (if t.x == v then 1 else 0) + (if t.y == v then 1 else 0) + (if t.z == v then 1 else 0)
  }

  predicate Sorted3(t: UVec3) {
    t.x <= t.y <= t.z
  }

  lemma Count3IsMultiplicity(t: UVec3, v: u32)
    ensures Values3(t)[v] == Count3(t, v)
  {
  }

  lemma SameCounts3(t: UVec3, u: UVec3)
    requires forall v :: Count3(t, v) == Count3(u, v)
    ensures Values3(t) == Values3(u)
  {
    forall v ensures Values3(t)[v] == Values3(u)[v] {
      Count3IsMultiplicity(t, v);
      Count3IsMultiplicity(u, v);
    }
  }

  /// Sort(uvec3): three SwapIfGreater steps on a local copy.
  method Sort3(a: UVec3) returns (t: UVec3)
    ensures Sorted3(t)
    ensures Values3(t) == Values3(a)
    ensures Sorted3(a) ==> t == a
  {
    var x, y, z := a.x, a.y, a.z;
    x, y := SwapIfGreater(x, y);
    x, z := SwapIfGreater(x, z);
    y, z := SwapIfGreater(y, z);
    t := UVec3(x, y, z);
    assert forall v :: Count3(t, v) == Count3(a, v);
    SameCounts3(t, a);
  }

  // ---------------------------------------------------------------------------
  // Comparisons on uvec3

  /// operator<: decided by the first component that differs.
  predicate Less(a: UVec3, b: UVec3): (r: bool)
    ensures a.x < b.x ==> r
    ensures r ==> a.x <= b.x && a != b
    ensures a.x == b.x && a.y == b.y ==> (r <==> a.z < b.z)
  {
    if a.x < b.x then true
    else if b.x < a.x then false
    else if a.y < b.y then true
    else if b.y < a.y then false
    else if a.z < b.z then true
    else if b.z < a.z then false
    else false
  }

  /// operator>: the same chain with every comparison reversed.
  predicate Greater(a: UVec3, b: UVec3): (r: bool)
    ensures a.x > b.x ==> r
    ensures r ==> a.x >= b.x && a != b
    ensures a.x == b.x && a.y == b.y ==> (r <==> a.z > b.z)
  {
    if a.x > b.x then true
    else if b.x > a.x then false
    else if a.y > b.y then true
    else if b.y > a.y then false
    else if a.z > b.z then true
    else if b.z > a.z then false
    else false
  }

  /// operator==: componentwise, which is equality of the records.
  predicate Equal(a: UVec3, b: UVec3): (r: bool)
    ensures r <==> a == b
  {
    a.x == b.x && a.y == b.y && a.z == b.z
  }

  /// The three components read as one base-2^32 number, x most significant.
  function Key(a: UVec3): int {
    a.x as int * 0x1_0000_0000_0000_0000 + a.y as int * 0x1_0000_0000 + a.z as int
  }

  /// The lower two digits of the key never reach the weight of the top one.
  lemma KeyDigits(a: UVec3)
    ensures 0 <= a.y as int * 0x1_0000_0000 + a.z as int < 0x1_0000_0000_0000_0000
    ensures 0 <= a.z as int < 0x1_0000_0000
  {
  }

  lemma KeyInjective(a: UVec3, b: UVec3)
    requires Key(a) == Key(b)
    ensures a == b
  {
    LessIsKeyOrder(a, b);
    LessIsKeyOrder(b, a);
  }

  /// operator< is the lexicographic order on (x, y, z).
  lemma LessIsKeyOrder(a: UVec3, b: UVec3)
    ensures Less(a, b) <==> Key(a) < Key(b)
  {
    KeyDigits(a);
    KeyDigits(b);
    if a.x < b.x {
      assert Key(a) < Key(b);
    } else if b.x < a.x {
      assert Key(b) < Key(a);
    } else if a.y < b.y {
      assert Key(a) < Key(b);
    } else if b.y < a.y {
      assert Key(b) < Key(a);
    }
  }

  /// operator> holds exactly when the arguments are in operator< order the other way round.
  lemma GreaterIsConverse(a: UVec3, b: UVec3)
    ensures Greater(a, b) <==> Less(b, a)
  {
  }

  lemma LessIrreflexive(a: UVec3)
    ensures !Less(a, a)
  {
  }

  lemma LessTransitive(a: UVec3, b: UVec3, c: UVec3)
    requires Less(a, b) && Less(b, c)
    ensures Less(a, c)
  {
    LessIsKeyOrder(a, b);
    LessIsKeyOrder(b, c);
    LessIsKeyOrder(a, c);
  }

  /// For any two values exactly one of a < b, a == b and a > b holds.
  lemma Trichotomy(a: UVec3, b: UVec3)
    ensures (if Less(a, b) then 1 else 0) + (if Equal(a, b) then 1 else 0) + (if Greater(a, b) then 1 else 0) == 1
  {
    LessIsKeyOrder(a, b);
    LessIsKeyOrder(b, a);
    GreaterIsConverse(a, b);
    if Key(a) == Key(b) {
      KeyInjective(a, b);
    }
  }

  // ---------------------------------------------------------------------------
  // Wrap-around arithmetic on uvec3

  const Modulus: int := 0x1_0000_0000

  /// Unsigned 32-bit subtraction: the difference reduced modulo 2^32.
  function SubU32(p: u32, q: u32): u32 {
    ((p as int - q as int) % Modulus) as u32
  }

  /// Unsigned 32-bit addition, the inverse used to state what subtraction undoes.
  function AddU32(p: u32, q: u32): u32 {
    ((p as int + q as int) % Modulus) as u32
  }

  /// operator-: componentwise unsigned subtraction, built with U3.
  function Sub(a: UVec3, b: UVec3): (d: UVec3)
    ensures (d.x as int - a.x as int + b.x as int) % Modulus == 0
    ensures (d.y as int - a.y as int + b.y as int) % Modulus == 0
    ensures (d.z as int - a.z as int + b.z as int) % Modulus == 0
  {
    MakeUVec3(SubU32(a.x, b.x), SubU32(a.y, b.y), SubU32(a.z, b.z))
  }

  /// Adding b back, componentwise modulo 2^32, recovers a.
  lemma SubThenAdd(a: UVec3, b: UVec3)
    ensures var d := Sub(a, b); UVec3(AddU32(d.x, b.x), AddU32(d.y, b.y), AddU32(d.z, b.z)) == a
  {
    AddUndoesSub(a.x, b.x);
    AddUndoesSub(a.y, b.y);
    AddUndoesSub(a.z, b.z);
  }

  lemma AddUndoesSub(p: u32, q: u32)
    ensures AddU32(SubU32(p, q), q) == p
  {
    if p >= q {
      assert SubU32(p, q) as int == p as int - q as int;
    } else {
      assert SubU32(p, q) as int == p as int - q as int + Modulus;
    }
  }

  /// A component wraps exactly when its subtrahend is the larger.
  lemma SubWraps(p: u32, q: u32)
    ensures q <= p ==> SubU32(p, q) as int == p as int - q as int
    ensures p < q ==> SubU32(p, q) as int == p as int - q as int + Modulus
  {
  }

  // ---------------------------------------------------------------------------
  // int2 and vec3: fields updated in place, with an array view over the same storage.

  class Int2 {
    var x: i32
    var y: i32

    constructor Zero()
      ensures x == 0 && y == 0
    {
      x, y := 0, 0;
    }

    constructor Splat(a: i32)
      ensures x == a && y == a
    {
      x, y := a, a;
    }

    constructor (a: i32, b: i32)
      ensures x == a && y == b
    {
      x, y := a, b;
    }

    constructor Copy(v: Int2)
      ensures x == v.x && y == v.y
    {
      x, y := v.x, v.y;
    }

    /// operator[]: array[0] is x and array[1] is y.
    function At(i: nat): (v: i32)
      requires i < 2
      reads this
      ensures v == [x, y][i]
    {
      if i == 0 then x else y
    }

    /// The writable operator[]: stores v in the i-th slot of the shared storage.
    method SetAt(i: nat, v: i32)
      requires i < 2
      modifies this
      ensures At(i) == v
      ensures forall k :: 0 <= k < 2 && k != i ==> At(k) == old(At(k))
    {
      if i == 0 { x := v; } else { y := v; }
    }

    /// operator=: copies both fields.
    method Assign(rhs: Int2)
      modifies this
      ensures x == old(rhs.x) && y == old(rhs.y)
    {
      x, y := rhs.x, rhs.y;
    }
  }

  /// I2: a default-built int2 whose fields are then set.
  method MakeInt2(a: i32, b: i32) returns (t: Int2)
    ensures fresh(t)
    ensures t.x == a && t.y == b
  {
    t := new Int2.Zero();
    t.x := a;
    t.y := b;
  }

  class Vec3 {
    var x: i32
    var y: i32
    var z: i32
    var w: i32

    constructor Zero()
      ensures x == 0 && y == 0 && z == 0 && w == 0
    {
      x, y, z, w := 0, 0, 0, 0;
    }

    constructor Splat(a: i32)
      ensures x == a && y == a && z == a && w == 0
    {
      x, y, z, w := a, a, a, 0;
    }

    constructor (a: i32, b: i32, c: i32)
      ensures x == a && y == b && z == c && w == 0
    {
      x, y, z, w := a, b, c, 0;
    }

    /// The copy constructor does not copy the padding slot w.
    constructor Copy(v: Vec3)
      ensures x == v.x && y == v.y && z == v.z && w == 0
    {
      x, y, z, w := v.x, v.y, v.z, 0;
    }

    /// operator[]: array[0..3] are x, y, z and the padding w.
    function At(i: nat): (v: i32)
      requires i < 4
      reads this
      ensures v == [x, y, z, w][i]
    {
      if i == 0 then x else if i == 1 then y else if i == 2 then z else w
    }

    method SetAt(i: nat, v: i32)
      requires i < 4
      modifies this
      ensures At(i) == v
      ensures forall k :: 0 <= k < 4 && k != i ==> At(k) == old(At(k))
    {
      if i == 0 { x := v; } else if i == 1 { y := v; } else if i == 2 { z := v; } else { w := v; }
    }

    /// operator=: copies x, y and z; the padding slot keeps its value.
    method Assign(rhs: Vec3)
      modifies this
      ensures x == old(rhs.x) && y == old(rhs.y) && z == old(rhs.z)
      ensures w == old(w)
    {
      x, y, z := rhs.x, rhs.y, rhs.z;
    }
  }
}
