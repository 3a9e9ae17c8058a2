/** The quadtree tile coordinate the read client addresses data by: a level and
    a row and column below 2^level. Only the operations the read side uses are
    modelled: ancestor navigation (`ChangedLevelBy`), the numeric quad key that
    orders tiles and is stored in the quadtree index, the path of a tile
    relative to an index root, and the decimal `ToHereTile` form used in cache
    keys. */
module TileKeys {
  import Strings

  /** Number of addressable levels: a tile key has level 0 .. LevelCount - 1. */
  const LevelCount: nat := 32

  datatype TileKey = TileKey(level: nat, row: nat, column: nat)

  /** The single tile of level 0. */
  const RootTile: TileKey := TileKey(0, 0, 0)

  function Pow2(n: nat): (r: nat)
    ensures r >= 1
  {
    if n == 0 then 1 else 2 * Pow2(n - 1)
  }

  function Pow4(n: nat): (r: nat)
    ensures r >= 1
  {
    if n == 0 then 1 else 4 * Pow4(n - 1)
  }

  lemma {:induction false} Pow4Grows(n: nat, m: nat)
    requires n < m
    ensures 2 * Pow4(n) <= Pow4(m)
  {
    if m == n + 1 {
    } else {
      Pow4Grows(n, m - 1);
    }
  }

  /** A tile key addresses a cell of the quadtree. */
  predicate Valid(t: TileKey) {
    t.level < LevelCount && t.row < Pow2(t.level) && t.column < Pow2(t.level)
  }

  function Parent(t: TileKey): (p: TileKey)
    requires t.level > 0
    ensures p.level == t.level - 1
  {
    TileKey(t.level - 1, t.row / 2, t.column / 2)
  }

  /** Position 0..3 of a tile inside its parent; the row bit is the high bit. */
  function Quadrant(t: TileKey): (q: nat)
    ensures q < 4
  {
    2 * (t.row % 2) + t.column % 2
  }

  function Child(t: TileKey, q: nat): (c: TileKey)
    requires q < 4
    ensures c.level == t.level + 1
  {
    TileKey(t.level + 1, 2 * t.row + q / 2, 2 * t.column + q % 2)
  }

  /** Every tile below level 0 is its parent's child in its own quadrant. */
  lemma ChildOfParent(t: TileKey)
    requires t.level > 0
    ensures Child(Parent(t), Quadrant(t)) == t
  {
  }

  lemma ParentOfChild(t: TileKey, q: nat)
    requires q < 4
    ensures Parent(Child(t, q)) == t && Quadrant(Child(t, q)) == q
  {
  }

  lemma ParentValid(t: TileKey)
    requires Valid(t) && t.level > 0
    ensures Valid(Parent(t))
  {
    assert Pow2(t.level) == 2 * Pow2(t.level - 1);
  }

  /** The tile covering `t` at `level` (an ancestor when `level` is coarser,
      the top-left descendant when it is finer). */
  function ChangedLevelTo(t: TileKey, level: nat): (r: TileKey)
    ensures r.level == level
    decreases if level <= t.level then t.level - level else level - t.level
  {
    if level == t.level then t
    else if level < t.level then ChangedLevelTo(Parent(t), level)
    else ChangedLevelTo(Child(t, 0), level)
  }

  /** `ChangedLevelBy(delta)`: a negative delta walks up, never above level 0. */
  function ChangedLevelBy(t: TileKey, delta: int): (r: TileKey)
    ensures r.level == if t.level + delta < 0 then 0 else t.level + delta
    ensures delta <= 0 ==> IsAncestorOrSelf(r, t)
  {
    ChangedLevelTo(t, if t.level + delta < 0 then 0 else t.level + delta)
  }

  /** `a` is `t` itself or one of its ancestors. */
  predicate IsAncestorOrSelf(a: TileKey, t: TileKey) {
    a.level <= t.level && ChangedLevelTo(t, a.level) == a
  }

  lemma {:induction false} AncestorValid(t: TileKey, level: nat)
    requires Valid(t) && level <= t.level
    ensures Valid(ChangedLevelTo(t, level))
    decreases t.level - level
  {
    if level < t.level {
      ParentValid(t);
      AncestorValid(Parent(t), level);
    }
  }

  /** Walking up in two steps lands on the same ancestor as one step. */
  lemma {:induction false} ChangedLevelToTwice(t: TileKey, mid: nat, level: nat)
    requires level <= mid <= t.level
    ensures ChangedLevelTo(ChangedLevelTo(t, mid), level) == ChangedLevelTo(t, level)
    decreases t.level - mid
  {
    if mid < t.level {
      ChangedLevelToTwice(Parent(t), mid, level);
    }
  }

  lemma AncestorTransitive(a: TileKey, b: TileKey, c: TileKey)
    requires IsAncestorOrSelf(a, b) && IsAncestorOrSelf(b, c)
    ensures IsAncestorOrSelf(a, c)
  {
    ChangedLevelToTwice(c, b.level, a.level);
  }

  /** Probing `ChangedLevelBy(-1)` k times is probing `ChangedLevelBy(-k)`. */
  lemma ChangedLevelByComposes(t: TileKey, j: nat, k: nat)
    ensures ChangedLevelBy(ChangedLevelBy(t, -(j as int)), -(k as int)) == ChangedLevelBy(t, -((j + k) as int))
  {
    var mid: nat := if t.level < j then 0 else t.level - j;
    var low: nat := if t.level < j + k then 0 else t.level - (j + k);
    ChangedLevelToTwice(t, mid, low);
  }

  /** Path of `t` below `root`, packed two bits per level behind a leading 1
      (the index's relative sub quad key); 1 for `root` itself. */
  function SubKey(root: TileKey, t: TileKey): (k: nat)
    ensures k >= 1
    decreases t.level
  {
    if t.level <= root.level then 1 else 4 * SubKey(root, Parent(t)) + Quadrant(t)
  }

  /** The numeric quad key (`ToQuadKey64`): the path from level 0. */
  function QuadKey(t: TileKey): (k: nat)
    ensures k >= 1
  {
    SubKey(RootTile, t)
  }

  /** A relative key names its depth below the root: it lies in [4^d, 2*4^d). */
  lemma {:induction false} SubKeyRange(root: TileKey, t: TileKey)
    requires root.level <= t.level
    ensures Pow4(t.level - root.level) <= SubKey(root, t) < 2 * Pow4(t.level - root.level)
    decreases t.level
  {
    if t.level > root.level {
      SubKeyRange(root, Parent(t));
    }
  }

  /** A number lies in [4^n, 2*4^n) for at most one n. */
  lemma {:induction false} Pow4RangeUnique(x: nat, n: nat, m: nat)
    requires Pow4(n) <= x < 2 * Pow4(n) && Pow4(m) <= x < 2 * Pow4(m)
    ensures n == m
  {
    if n < m {
      Pow4Grows(n, m);
    } else if m < n {
      Pow4Grows(m, n);
    }
  }

  lemma {:induction false} SubKeyLevel(root: TileKey, a: TileKey, b: TileKey)
    requires root.level <= a.level && root.level <= b.level
    requires SubKey(root, a) == SubKey(root, b)
    ensures a.level == b.level
  {
    var k := SubKey(root, a);
    var da: nat, db: nat := a.level - root.level, b.level - root.level;
    assert Pow4(da) <= k < 2 * Pow4(da) by {
      SubKeyRange(root, a);
    }
    assert Pow4(db) <= k < 2 * Pow4(db) by {
      SubKeyRange(root, b);
    }
    Pow4RangeUnique(k, da, db);
  }

  /** The last base-4 digit and the rest of a number are determined by it. */
  lemma BaseFourDigit(x: nat, q: nat, y: nat, r: nat)
    requires q < 4 && r < 4 && 4 * x + q == 4 * y + r
    ensures x == y && q == r
  {
  }

  /** Two tiles below the same root with the same relative key are the same
      tile: the index can key its descendant entries by relative key alone. */
  lemma {:induction false} SubKeyInjective(root: TileKey, a: TileKey, b: TileKey)
    requires IsAncestorOrSelf(root, a) && IsAncestorOrSelf(root, b)
    requires SubKey(root, a) == SubKey(root, b)
    ensures a == b
    decreases a.level
  {
    SubKeyLevel(root, a, b);
    if a.level > root.level {
      var pa, pb := Parent(a), Parent(b);
      assert ChangedLevelTo(a, root.level) == ChangedLevelTo(pa, root.level);
      assert ChangedLevelTo(b, root.level) == ChangedLevelTo(pb, root.level);
      BaseFourDigit(SubKey(root, pa), Quadrant(a), SubKey(root, pb), Quadrant(b));
      SubKeyInjective(root, pa, pb);
      ChildOfParent(a);
      ChildOfParent(b);
    }
  }

  lemma {:induction false} ValidDescendsFromRootTile(t: TileKey)
    requires Valid(t)
    ensures IsAncestorOrSelf(RootTile, t)
    decreases t.level
  {
    if t.level > 0 {
      ParentValid(t);
      ValidDescendsFromRootTile(Parent(t));
    }
  }

  /** Quad keys of valid tiles are unique. */
  lemma QuadKeyInjective(a: TileKey, b: TileKey)
    requires Valid(a) && Valid(b) && QuadKey(a) == QuadKey(b)
    ensures a == b
  {
    ValidDescendsFromRootTile(a);
    ValidDescendsFromRootTile(b);
    SubKeyInjective(RootTile, a, b);
  }

  /** An ancestor's quad key is smaller than its descendant's. */
  lemma {:induction false} AncestorQuadKeySmaller(a: TileKey, t: TileKey)
    requires IsAncestorOrSelf(a, t)
    ensures QuadKey(a) <= QuadKey(t)
    decreases t.level
  {
    if a.level < t.level {
      AncestorQuadKeySmaller(a, Parent(t));
    }
  }

  /** Tile from a quad key; the inverse of `QuadKey` on valid tiles. */
  function FromQuadKey(k: nat): TileKey
    requires k >= 1
  {
    if k < 4 then RootTile else Child(FromQuadKey(k / 4), k % 4)
  }

  lemma {:induction false} FromQuadKeyRoundTrip(t: TileKey)
    requires Valid(t)
    ensures FromQuadKey(QuadKey(t)) == t
    decreases t.level
  {
    if t.level > 0 {
      var p := Parent(t);
      ParentValid(t);
      FromQuadKeyRoundTrip(p);
      assert QuadKey(t) == 4 * QuadKey(p) + Quadrant(t);
      assert QuadKey(t) / 4 == QuadKey(p) && QuadKey(t) % 4 == Quadrant(t);
      ChildOfParent(t);
    }
  }

  /** The total order on tile keys (`operator<`): by quad key. */
  predicate Less(a: TileKey, b: TileKey) {
    QuadKey(a) < QuadKey(b)
  }

  /** The order is total on valid tiles and coarser levels come first. */
  lemma LessIsTotalAndLevelMajor(a: TileKey, b: TileKey)
    requires Valid(a) && Valid(b)
    ensures a != b <==> Less(a, b) || Less(b, a)
    ensures a.level < b.level ==> Less(a, b)
  {
    var ka, kb := QuadKey(a), QuadKey(b);
    if a != b && ka == kb {
      QuadKeyInjective(a, b);
    }
    if a.level < b.level {
      SubKeyRange(RootTile, a);
      SubKeyRange(RootTile, b);
      Pow4Grows(a.level, b.level);
      assert ka < 2 * Pow4(a.level) <= Pow4(b.level) <= kb;
    }
  }

  /** Decimal form of the quad key (`ToHereTile`), used in cache keys. */
  function ToHereTile(t: TileKey): (s: string)
    ensures |s| >= 1 && forall i :: 0 <= i < |s| ==> Strings.IsDigit(s[i])
  {
    Strings.NatToString(QuadKey(t))
  }

  /** Distinct valid tiles have distinct `ToHereTile` strings. */
  lemma ToHereTileInjective(a: TileKey, b: TileKey)
    requires Valid(a) && Valid(b) && ToHereTile(a) == ToHereTile(b)
    ensures a == b
  {
    Strings.NatToStringInjective(QuadKey(a), QuadKey(b));
    QuadKeyInjective(a, b);
  }
}
