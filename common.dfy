/** Shared vocabulary: optional values, Python-style slicing and small integer
    helpers used by every other module of the model. */
module Common {

  /** Python's `None` / a present value. */
  datatype Option<+T> = None | Some(value: T) {
    function GetOr(default: T): T {
      match this
      case Some(v) => v
      case None => default
    }
  }

  /** A byte of a Python `bytes` object. */
  type Byte = b: int | 0 <= b < 256

  /** A tile coordinate `(x, y)`. */
  type Pos = (int, int)

  /** A key of the engine's tile maps: `(x, y, layer)`. */
  type TileKey = (int, int, int)

  /** `ObjectPlacement` of the painting engine: `width` × `height` tiles of
      object `objectId` from tileset `tileset` with top-left cell `(x, y)`. */
  datatype Placement = Placement(tileset: int, objectId: int, layer: int, x: int, y: int, width: int, height: int)

  /** Two placements share a cell. */
  predicate Overlap(a: Placement, b: Placement) {
    a.x < b.x + b.width && b.x < a.x + a.width && a.y < b.y + b.height && b.y < a.y + a.height
  }

  function Abs(x: int): (r: nat)
    ensures r == x || r == -x
  {
    if x < 0 then -x else x
  }

  function Min(a: int, b: int): (r: int)
    ensures r <= a && r <= b && (r == a || r == b)
  {
    if a <= b then a else b
  }

  function Max(a: int, b: int): (r: int)
    ensures r >= a && r >= b && (r == a || r == b)
  {
    if a >= b then a else b
  }

  /** `max(lo, min(hi, v))`, the clamping idiom of the source. */
  function Clamp(lo: int, hi: int, v: int): (r: int)
    requires lo <= hi
    ensures lo <= r <= hi
    ensures lo <= v <= hi ==> r == v
    ensures v < lo ==> r == lo
    ensures v > hi ==> r == hi
  {
    Max(lo, Min(hi, v))
  }

  /** Sign of an integer, as used by Bresenham-style stepping. */
  function Sign(x: int): (r: int)
    ensures x > 0 ==> r == 1
    ensures x < 0 ==> r == -1
    ensures x == 0 ==> r == 0
  {
    if x > 0 then 1 else if x < 0 then -1 else 0
  }

  /** Python's normalisation of a slice bound `i` against a sequence of length `n`. */
  function SliceBound(n: nat, i: int): (r: nat)
    ensures r <= n
    ensures 0 <= i <= n ==> r == i
    ensures i > n ==> r == n
    ensures i < 0 && i + n >= 0 ==> r == i + n
    ensures i + n < 0 ==> r == 0
  {
    if i < 0 then (if i + n < 0 then 0 else i + n)
    else if i > n then n else i
  }

  /** Python `s[:i]`. */
  function Take<T>(s: seq<T>, i: int): seq<T> {
    s[..SliceBound(|s|, i)]
  }

  /** Python `s[i:]`. */
  function Drop<T>(s: seq<T>, i: int): seq<T> {
    s[SliceBound(|s|, i)..]
  }

  /** Python `s[i:j]`. */
  function Slice<T>(s: seq<T>, i: int, j: int): seq<T> {
    var a := SliceBound(|s|, i);
    var b := SliceBound(|s|, j);
    if a <= b then s[a..b] else []
  }

  /** A sequence without repeated elements. */
  predicate Distinct<T(==)>(s: seq<T>) {
    forall i, j :: 0 <= i < j < |s| ==> s[i] != s[j]
  }

  /** A list without duplicates whose only element is `x` is `[x]`. */
  lemma DistinctSingleton<T>(s: seq<T>, x: T)
    requires Distinct(s) && x in s
    requires forall y :: y in s ==> y == x
    ensures s == [x]
  {
    var i :| 0 <= i < |s| && s[i] == x;
    forall k | 0 <= k < |s| ensures s[k] == x && k == i {
      assert s[k] in s;
    }
    assert s[0] == x && s[|s| - 1] == x;
  }

  /** `s` without its first occurrence of `x` (Python `list.remove`). */
  function RemoveFirst<T(==)>(s: seq<T>, x: T): (r: seq<T>)
    requires x in s
    ensures |r| == |s| - 1
    ensures multiset(r) == multiset(s) - multiset{x}
  {
    assert s == [s[0]] + s[1..];
    if s[0] == x then s[1..] else [s[0]] + RemoveFirst(s[1..], x)
  }

  /** Removing the only occurrence of `x` from a list without duplicates
      leaves the other elements, still without duplicates. */
  lemma RemoveDistinct<T>(s: seq<T>, x: T)
    requires x in s && Distinct(s)
    ensures Distinct(RemoveFirst(s, x))
    ensures x !in RemoveFirst(s, x)
    ensures forall y :: y in RemoveFirst(s, x) <==> y in s && y != x
  {
    var r := RemoveFirst(s, x);
    forall y ensures y in r <==> y in s && y != x {
      assert y in r <==> y in multiset(r);
      assert y in s <==> y in multiset(s);
      assert multiset(s)[x] == 1 by { DistinctCount(s, x); }
    }
    forall y | y in r ensures multiset(r)[y] == 1 {
      assert y in multiset(r);
      assert y in s;
      DistinctCount(s, y);
    }
    CountOneDistinct(r);
  }

  /** An element of a list without duplicates occurs once. */
  lemma {:induction false} DistinctCount<T>(s: seq<T>, y: T)
    requires Distinct(s) && y in s
    ensures multiset(s)[y] == 1
  {
    if s[0] == y {
      assert y !in s[1..];
      assert s == [s[0]] + s[1..];
    } else {
      assert s == [s[0]] + s[1..];
      DistinctCount(s[1..], y);
    }
  }

  /** A list in which every element occurs once has no duplicates. */
  lemma CountOneDistinct<T>(r: seq<T>)
    requires forall y :: y in r ==> multiset(r)[y] == 1
    ensures Distinct(r)
  {
    forall i, j | 0 <= i < j < |r| ensures r[i] != r[j] {
      assert r == r[..i] + [r[i]] + r[i + 1..j] + [r[j]] + r[j + 1..];
      assert multiset(r) == multiset(r[..i]) + multiset{r[i]} + multiset(r[i + 1..j])
                            + multiset{r[j]} + multiset(r[j + 1..]);
      assert multiset(r)[r[i]] >= 1 + (if r[j] == r[i] then 1 else 0);
    }
  }

  /** A non-empty set of integers has a member (stated for `int` so that
      a choice `x :| x in s` over it has a witness to point at). */
  lemma IntSetHasMember(s: set<int>)
    requires s != {}
    ensures exists x :: x in s
  {
    NoMemberEmpty(s);
  }

  lemma NoMemberEmpty(s: set<int>)
    ensures (forall x :: x !in s) ==> s == {}
  {
    if forall x :: x !in s {
      assert s == {};
    }
  }
}
