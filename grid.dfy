/** Tile-grid helpers shared by the painting modules: rectangles given by two
    corners, their cells in the row-major order the source's nested
    `for y … for x …` loops visit them, and the "in the same order"
    relation between a sequence and a sub-list of it. */
module Grid {
  import opened Common

  /** The four stroke directions, by the names the painting code uses. */
  datatype Heading = LeftToRight | RightToLeft | TopToBottom | BottomToTop

  function HeadingName(h: Heading): string {
    match h
    case LeftToRight => "left_to_right"
    case RightToLeft => "right_to_left"
    case TopToBottom => "top_to_bottom"
    case BottomToTop => "bottom_to_top"
  }

  /** The cells of row `y` from `minX` to `maxX`, left to right. */
  function Row(y: int, minX: int, maxX: int): (r: seq<Pos>)
    ensures |r| == if maxX >= minX then maxX - minX + 1 else 0
    ensures forall i :: 0 <= i < |r| ==> r[i] == (minX + i, y)
  {
    if maxX < minX then [] else seq(maxX - minX + 1, i => (minX + i, y))
  }

  /** The cells of rows `minY..maxY`, top row first. */
  function Cells(minX: int, maxX: int, minY: int, maxY: int): seq<Pos>
    decreases maxY - minY
  {
    if maxY < minY then [] else Cells(minX, maxX, minY, maxY - 1) + Row(maxY, minX, maxX)
  }

  /** One more row at the bottom. */
  lemma CellsSnoc(minX: int, maxX: int, minY: int, y: int)
    requires minY <= y
    ensures Cells(minX, maxX, minY, y) == Cells(minX, maxX, minY, y - 1) + Row(y, minX, maxX)
  {
  }

  /** One more cell at the right. */
  lemma RowSnoc(y: int, minX: int, x: int)
    requires minX <= x
    ensures Row(y, minX, x) == Row(y, minX, x - 1) + [(x, y)]
  {
  }

  predicate InBox(p: Pos, minX: int, maxX: int, minY: int, maxY: int) {
    minX <= p.0 <= maxX && minY <= p.1 <= maxY
  }

  /** The row-major cells are exactly the cells of the box, each once, and
      there are width × height of them. */
  lemma {:induction false} CellsFacts(minX: int, maxX: int, minY: int, maxY: int)
    requires minX <= maxX
    ensures var c := Cells(minX, maxX, minY, maxY);
      |c| == (maxX - minX + 1) * (if maxY >= minY then maxY - minY + 1 else 0)
      && (forall p :: p in c <==> InBox(p, minX, maxX, minY, maxY))
      && Distinct(c)
    decreases maxY - minY
  {
    if maxY >= minY {
      CellsFacts(minX, maxX, minY, maxY - 1);
      var a := Cells(minX, maxX, minY, maxY - 1);
      var r := Row(maxY, minX, maxX);
      var c := a + r;
      assert (maxX - minX + 1) * (maxY - minY + 1) == (maxX - minX + 1) * (maxY - 1 - minY + 1) + (maxX - minX + 1);
      forall p | InBox(p, minX, maxX, minY, maxY) ensures p in c {
        if p.1 == maxY { assert r[p.0 - minX] == p; } else { assert p in a; }
      }
      forall i, j | 0 <= i < j < |c| ensures c[i] != c[j] {
        if j >= |a| && i < |a| {
          assert c[i] in a;
        }
      }
    }
  }

  /** `a` lists some of the elements of `b`, in `b`'s order. */
  predicate Subsequence<T(==)>(a: seq<T>, b: seq<T>)
    decreases |b|
  {
    if a == [] then true
    else if b == [] then false
    else if a[|a| - 1] == b[|b| - 1] then Subsequence(a[..|a| - 1], b[..|b| - 1])
    else Subsequence(a, b[..|b| - 1])
  }

  /** A subsequence stays one when the sequence grows, and grows with it
      when both gain the same last element. */
  lemma SubsequenceExtend<T>(a: seq<T>, b: seq<T>, x: T)
    requires Subsequence(a, b)
    ensures Subsequence(a, b + [x]) && Subsequence(a + [x], b + [x])
  {
    SubsequenceWeaken(a, b, x);
    assert (b + [x])[..|b|] == b;
    assert (a + [x])[..|a|] == a;
  }

  lemma {:induction false} SubsequenceWeaken<T>(a: seq<T>, b: seq<T>, x: T)
    requires Subsequence(a, b)
    ensures Subsequence(a, b + [x])
    decreases |b|, 1
  {
    assert (b + [x])[..|b|] == b;
    if a != [] && a[|a| - 1] == x {
      SubsequenceDropLast(a, b);
    }
  }

  lemma {:induction false} SubsequenceDropLast<T>(a: seq<T>, b: seq<T>)
    requires Subsequence(a, b) && a != []
    ensures Subsequence(a[..|a| - 1], b)
    decreases |b|, 0
  {
    var a' := a[..|a| - 1];
    var b' := b[..|b| - 1];
    assert b == b' + [b[|b| - 1]];
    if a[|a| - 1] == b[|b| - 1] {
      SubsequenceWeaken(a', b', b[|b| - 1]);
    } else {
      SubsequenceDropLast(a, b');
      SubsequenceWeaken(a', b', b[|b| - 1]);
    }
  }

  /** Everything in a subsequence comes from the sequence. */
  lemma {:induction false} SubsequenceMembers<T>(a: seq<T>, b: seq<T>)
    requires Subsequence(a, b)
    ensures forall x :: x in a ==> x in b
    ensures |a| <= |b|
    decreases |b|
  {
    if a != [] {
      if a[|a| - 1] == b[|b| - 1] {
        SubsequenceMembers(a[..|a| - 1], b[..|b| - 1]);
        assert a == a[..|a| - 1] + [a[|a| - 1]];
        assert b == b[..|b| - 1] + [b[|b| - 1]];
      } else {
        SubsequenceMembers(a, b[..|b| - 1]);
        assert b == b[..|b| - 1] + [b[|b| - 1]];
      }
    }
  }
}
