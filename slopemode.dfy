/** The decisions of the painting engine's slope mode
    (quickpaint/core/engine.py, `toggle_slope_mode`, `update_slope_preview`,
    `commit_slope`, `_suggest_default_slope`): which slope is previewed from
    the anchor, where it is placed, where the anchor moves when it is
    committed, and which way the stroke may leave slope mode. The engine
    class that holds this state is in module Engine. */
module SlopeMode {
  import opened Common
  import opened Tiles
  import opened Grid
  import opened PyStr
  import opened SlopeShapes
  import opened Outline

  // ----- what the engine reads off a slope name -----

  /** The engine tests a slope's category with `'top' in slope_type`: for
      the names it builds that holds exactly for the ground shapes. */
  lemma TopInName(s: SlopeShape)
    ensures Contains(Name(s), "top") <==> s.top
  {
    var n := Name(s);
    ContainsAt(n, "top");
    if s.top {
      assert n[6..9] == "top";
      assert OccursAt(n, "top", 6);
    } else {
      OnlyP(s);
      assert n[1] == 'l';
      forall i | 0 <= i <= |n| - 3 ensures !OccursAt(n, "top", i) {
        if i == 1 {
          assert n[i..i + 3][0] != "top"[0];
        } else {
          assert n[i..i + 3][2] != "top"[2];
        }
      }
    }
  }

  /** A ceiling slope's name holds a 'p' only in its "slope" prefix. */
  lemma OnlyP(s: SlopeShape)
    requires !s.top
    ensures forall k :: 0 <= k < |Name(s)| && Name(s)[k] == 'p' ==> k == 3
  {
    var a, m, b := Prefix(s.top), SizeName(s.size), Suffix(s.left);
    assert Name(s) == a + m + b;
    assert a == "slope_bottom_";
    assert 'p' !in m && 'p' !in b;
    forall k | 0 <= k < |Name(s)| && k != 3 ensures Name(s)[k] != 'p' {
      if k < |a| {
        assert Name(s)[k] == a[k];
      } else if k >= |a| + |m| {
        assert Name(s)[k] == b[k - |a| - |m|];
      } else {
        assert Name(s)[k] == m[k - |a|];
      }
    }
  }

  /** The engine tests a slope's side with `'left' in slope_type`: for the
      names it builds that holds exactly for the ascending shapes. */
  lemma LeftInName(s: SlopeShape)
    ensures Contains(Name(s), "left") <==> s.left
  {
    var n := Name(s);
    ContainsAt(n, "left");
    if s.left {
      LeftAtEnd(s);
    } else {
      NoF(s);
      forall i | 0 <= i <= |n| - 4 ensures !OccursAt(n, "left", i) {
        assert n[i..i + 4][2] != "left"[2];
      }
    }
  }

  /** An ascending slope's name ends in "left". */
  lemma LeftAtEnd(s: SlopeShape)
    requires s.left
    ensures OccursAt(Name(s), "left", |Name(s)| - 4)
  {
    var n, a, m, b := Name(s), Prefix(s.top), SizeName(s.size), Suffix(s.left);
    assert n == a + m + b;
    assert n[|a| + |m| + 1..|a| + |m| + 5] == b[1..5] == "left";
  }

  /** A descending slope's name holds no 'f'. */
  lemma NoF(s: SlopeShape)
    requires !s.left
    ensures forall k :: 0 <= k < |Name(s)| ==> Name(s)[k] != 'f'
  {
    var n, a, m, b := Name(s), Prefix(s.top), SizeName(s.size), Suffix(s.left);
    assert n == a + m + b;
    assert 'f' !in a && 'f' !in m && 'f' !in b;
    forall k | 0 <= k < |n| ensures n[k] != 'f' {
      if k < |a| {
        assert n[k] == a[k];
      } else if k >= |a| + |m| {
        assert n[k] == b[k - |a| - |m|];
      } else {
        assert n[k] == m[k - |a|];
      }
    }
  }

  /** `commit_slope`'s width rule: 4 for a name holding '4x1', else 2 for
      one holding '2x1', else 1. */
  function WidthFromName(t: string): (w: nat) {
    if Contains(t, "4x1") then 4 else if Contains(t, "2x1") then 2 else 1
  }

  /** For the names the engine builds, that rule gives the shape's width. */
  lemma WidthOfName(s: SlopeShape)
    ensures WidthFromName(Name(s)) == SizeWidth(s.size)
  {
    SizeOccurs(s, TwoByOne);
    SizeOccurs(s, FourByOne);
  }

  // ----- leaving slope mode -----

  /** The exit restriction `toggle_slope_mode` sets when slope mode ends:
      none when no slope was committed, rightwards after a ground slope and
      leftwards after any other. */
  function ExitDirection(committed: seq<SlopeSegment>): (h: Option<Heading>)
    ensures committed == [] <==> h.None?
    ensures committed != [] ==>
      h == Some(if committed[|committed| - 1].shape.top then LeftToRight else RightToLeft)
  {
    if committed == [] then None
    else
      var last := committed[|committed| - 1].shape;
      TopInName(last);
      Some(if Contains(Name(last), "top") then LeftToRight else RightToLeft)
  }

  // ----- the preview -----

  /** The three preferences `update_slope_preview` derives from the angle of
      the mouse above the horizontal: at least 45°, at least 20°, below 20°.
      The angle itself is a floating-point `atan2` and stays outside the
      model: the caller supplies the classification. */
  datatype AngleClass = Steep | Medium | Gentle

  /** The order in which sizes are tried for each preference. */
  function SizeCandidates(a: AngleClass): (z: seq<SlopeSize>)
    ensures |z| == 3 && OneByOne in z && TwoByOne in z && FourByOne in z
  {
    match a
    case Steep => [OneByOne, TwoByOne, FourByOne]
    case Medium => [TwoByOne, OneByOne, FourByOne]
    case Gentle => [FourByOne, TwoByOne, OneByOne]
  }

  /** The shapes whose key is among the brush's enabled slope names; the
      engine looks every candidate up by its key, so only these can be
      previewed or suggested. */
  function EnabledShapes(names: set<string>): (r: set<SlopeShape>)
    ensures forall s :: s in r <==> Name(s) in names
  {
    var r := set top: bool, z: SlopeSize, left: bool
               | z in {OneByOne, TwoByOne, FourByOne} && Name(SlopeShape(top, z, left)) in names
               :: SlopeShape(top, z, left);
    assert forall s :: Name(s) in names ==> s in r by {
      forall s | Name(s) in names ensures s in r {
        assert s == SlopeShape(s.top, s.size, s.left);
      }
    }
    r
  }

  /** The first size of `sizes` whose slope of the given category and side
      the brush has enabled. */
  function FirstEnabled(sizes: seq<SlopeSize>, top: bool, left: bool, enabled: set<SlopeShape>): (r: Option<nat>)
    ensures r.Some? ==> r.value < |sizes| && SlopeShape(top, sizes[r.value], left) in enabled
    ensures r.Some? ==> forall j :: 0 <= j < r.value ==> SlopeShape(top, sizes[j], left) !in enabled
    ensures r.None? <==> forall j :: 0 <= j < |sizes| ==> SlopeShape(top, sizes[j], left) !in enabled
  {
    if sizes == [] then None
    else if SlopeShape(top, sizes[0], left) in enabled then Some(0)
    else
      match FirstEnabled(sizes[1..], top, left, enabled)
      case None => None
      case Some(i) => Some(i + 1)
  }

  /** The category `update_slope_preview` picks for the direction at the
      anchor and the horizontal offset of the mouse, with the inner corner
      to give the anchor when the slope branches off a wall; `None` where
      the preview is blocked. Along the ground only rightwards is allowed,
      along the ceiling only leftwards, and from a wall either way. */
  function Branch(dir: Option<Heading>, dx: int): (r: Option<(bool, Option<Terrain>)>)
    ensures r.Some? ==> (r.value.0 <==> dx > 0) && dx != 0
    ensures r.Some? && r.value.1.Some? ==> dir == Some(TopToBottom) || dir == Some(BottomToTop)
    ensures dir == Some(LeftToRight) ==> (r.Some? <==> dx > 0)
    ensures dir == Some(RightToLeft) ==> (r.Some? <==> dx < 0)
    ensures dir.None? ==> r.None?
  {
    match dir
    case Some(LeftToRight) => if dx <= 0 then None else Some((true, None))
    case Some(RightToLeft) => if dx >= 0 then None else Some((false, None))
    case Some(BottomToTop) =>
      if dx > 0 then Some((true, Some(InnerBottomRight)))
      else if dx < 0 then Some((false, Some(InnerBottomLeft)))
      else None
    case Some(TopToBottom) =>
      if dx > 0 then Some((true, Some(InnerTopRight)))
      else if dx < 0 then Some((false, Some(InnerTopLeft)))
      else None
    case None => None
  }

  /** Where a slope of the given shape starts for an anchor: a ground slope
      just right of the anchor, a ceiling slope ending just left of it; an
      ascending slope one row up, a descending one on the anchor's row. */
  function OriginFor(anchor: Pos, shape: SlopeShape): (o: Pos)
    ensures shape.top ==> o.0 == anchor.0 + 1
    ensures !shape.top ==> o.0 + SizeWidth(shape.size) == anchor.0
    ensures o.1 == if shape.left then anchor.1 - 1 else anchor.1
  {
    var x := if shape.top then anchor.0 + 1 else anchor.0 - SizeWidth(shape.size);
    (x, if shape.left then anchor.1 - 1 else anchor.1)
  }

  /** What `update_slope_preview` writes: the inner corner for the anchor
      (`None` when the field is left alone) and the new preview. */
  datatype PreviewUpdate = PreviewUpdate(innerCorner: Option<Option<Terrain>>, preview: Option<SlopeSegment>)

  /** `update_slope_preview` for a mouse position, once slope mode is on and
      an anchor exists. `dir` is `slope_current_direction or
      initial_direction`; `angle` classifies `(|dx|, |dy|)`. */
  function PreviewFor(anchor: Pos, mouse: Pos, dir: Option<Heading>, enabled: set<SlopeShape>,
                      angle: (nat, nat) -> AngleClass): (u: PreviewUpdate)
  {
    var dx, dy := mouse.0 - anchor.0, mouse.1 - anchor.1;
    if dx == 0 && dy == 0 then PreviewUpdate(None, None)
    else
      match Branch(dir, dx)
      case None => PreviewUpdate(None, None)
      case Some((top, corner)) =>
        var left := dy < 0;
        var sizes := SizeCandidates(if dx == 0 then Steep else angle(Abs(dx), Abs(dy)));
        PreviewUpdate(Some(corner), Pick(anchor, sizes, top, left, enabled))
  }

  /** The slope of the first enabled size among `sizes`, placed against
      the anchor. */
  function Pick(anchor: Pos, sizes: seq<SlopeSize>, top: bool, left: bool, enabled: set<SlopeShape>): (r: Option<SlopeSegment>)
    ensures var i := FirstEnabled(sizes, top, left, enabled);
      (r.Some? <==> i.Some?)
      && (r.Some? ==> r.value.shape == SlopeShape(top, sizes[i.value], left)
                      && r.value.origin == OriginFor(anchor, r.value.shape))
  {
    match FirstEnabled(sizes, top, left, enabled)
    case None => None
    case Some(i) =>
      var shape := SlopeShape(top, sizes[i], left);
      Some(SlopeSegment(shape, OriginFor(anchor, shape)))
  }

  /** The preview is always an enabled slope, on the side of the anchor the
      mouse is on: a ground slope to the right, a ceiling slope to the left,
      ascending when the mouse is above the anchor; it starts right after
      the anchor or ends right before it. Along the ground no preview
      appears for a mouse at or left of the anchor, along the ceiling none
      for one at or right of it, and none with the mouse on the anchor. */
  lemma PreviewFacts(anchor: Pos, mouse: Pos, dir: Option<Heading>, enabled: set<SlopeShape>,
                     angle: (nat, nat) -> AngleClass)
    ensures var u := PreviewFor(anchor, mouse, dir, enabled, angle);
      (u.preview.Some? ==>
         var s := u.preview.value;
         s.shape in enabled
         && (s.shape.top <==> mouse.0 > anchor.0)
         && (s.shape.left <==> mouse.1 < anchor.1)
         && s.origin == OriginFor(anchor, s.shape))
      && (mouse == anchor ==> u == PreviewUpdate(None, None))
      && (dir == Some(LeftToRight) && mouse.0 <= anchor.0 ==> u.preview.None?)
      && (dir == Some(RightToLeft) && mouse.0 >= anchor.0 ==> u.preview.None?)
      && (u.innerCorner.Some? && u.innerCorner.value.Some? ==> dir == Some(TopToBottom) || dir == Some(BottomToTop))
  {
  }

  /** No slope of the given category and side is enabled. */
  predicate NoneEnabled(top: bool, left: bool, enabled: set<SlopeShape>) {
    forall z: SlopeSize :: SlopeShape(top, z, left) !in enabled
  }

  /** Trying all three sizes finds nothing exactly when none is enabled. */
  lemma FirstEnabledOfAll(sizes: seq<SlopeSize>, top: bool, left: bool, enabled: set<SlopeShape>)
    requires OneByOne in sizes && TwoByOne in sizes && FourByOne in sizes
    ensures FirstEnabled(sizes, top, left, enabled).None? <==> NoneEnabled(top, left, enabled)
  {
    if FirstEnabled(sizes, top, left, enabled).None? {
      forall z: SlopeSize ensures SlopeShape(top, z, left) !in enabled {
        var j :| 0 <= j < |sizes| && sizes[j] == z;
      }
    }
  }

  /** The size previewed is the first enabled one in the order the angle
      prefers; no preview of a reachable category means none of its sizes
      on that side is enabled. */
  lemma PreviewSizeIsFirstEnabled(anchor: Pos, mouse: Pos, dir: Option<Heading>, enabled: set<SlopeShape>,
                                  angle: (nat, nat) -> AngleClass)
    requires mouse.0 != anchor.0 && Branch(dir, mouse.0 - anchor.0).Some?
    ensures var u := PreviewFor(anchor, mouse, dir, enabled, angle);
      var top, left := mouse.0 > anchor.0, mouse.1 < anchor.1;
      var sizes := SizeCandidates(angle(Abs(mouse.0 - anchor.0), Abs(mouse.1 - anchor.1)));
      (u.preview.None? <==> NoneEnabled(top, left, enabled))
      && (u.preview.Some? ==>
            exists i :: 0 <= i < 3 && sizes[i] == u.preview.value.shape.size
              && forall j :: 0 <= j < i ==> SlopeShape(top, sizes[j], left) !in enabled)
  {
    var top, left := mouse.0 > anchor.0, mouse.1 < anchor.1;
    var sizes := SizeCandidates(angle(Abs(mouse.0 - anchor.0), Abs(mouse.1 - anchor.1)));
    FirstEnabledOfAll(sizes, top, left, enabled);
    PreviewPicksFirst(anchor, mouse, dir, enabled, angle);
  }

  /** Off the anchor's column and on a reachable side, the preview is the
      first enabled size among the angle's candidates. */
  lemma PreviewPicksFirst(anchor: Pos, mouse: Pos, dir: Option<Heading>, enabled: set<SlopeShape>,
                          angle: (nat, nat) -> AngleClass)
    requires mouse.0 != anchor.0 && Branch(dir, mouse.0 - anchor.0).Some?
    ensures PreviewFor(anchor, mouse, dir, enabled, angle).preview
         == Pick(anchor, SizeCandidates(angle(Abs(mouse.0 - anchor.0), Abs(mouse.1 - anchor.1))),
                 mouse.0 > anchor.0, mouse.1 < anchor.1, enabled)
  {
  }

  // ----- the default suggestion -----

  /** `_suggest_default_slope`: with an anchor, an enabled slope and a
      horizontal direction, the smallest enabled ascending slope of the
      direction's category, else the smallest descending one; `None` when
      nothing is suggested (the preview is then left as it was). The early
      return on an empty enabled set is taken here on the enabled shapes:
      enabled names that are no slope key change nothing, since both
      searches then find nothing either way. */
  function DefaultSuggestion(anchor: Pos, dir: Option<Heading>, enabled: set<SlopeShape>): (r: Option<SlopeSegment>)
  {
    if enabled == {} then None
    else if dir != Some(LeftToRight) && dir != Some(RightToLeft) then None
    else
      var top := dir == Some(LeftToRight);
      var sizes := [OneByOne, TwoByOne, FourByOne];
      match Pick(anchor, sizes, top, true, enabled)
      case Some(s) => Some(s)
      case None => Pick(anchor, sizes, top, false, enabled)
  }

  /** The suggestion is an enabled slope of the category the direction
      allows, placed against the anchor; it is descending only when no
      ascending slope of that category is enabled, and no smaller slope of
      its kind is enabled. A vertical or missing direction suggests
      nothing, and so does a horizontal one exactly when no slope of its
      category is enabled. */
  lemma SuggestionFacts(anchor: Pos, dir: Option<Heading>, enabled: set<SlopeShape>)
    ensures var r := DefaultSuggestion(anchor, dir, enabled);
      (r.Some? ==>
         var s := r.value.shape;
         s in enabled
         && (dir == Some(LeftToRight) || dir == Some(RightToLeft))
         && (s.top <==> dir == Some(LeftToRight))
         && r.value.origin == OriginFor(anchor, s)
         && (!s.left ==> NoneEnabled(s.top, true, enabled))
         && (s.size != OneByOne ==> SlopeShape(s.top, OneByOne, s.left) !in enabled)
         && (s.size == FourByOne ==> SlopeShape(s.top, TwoByOne, s.left) !in enabled))
      && (dir != Some(LeftToRight) && dir != Some(RightToLeft) ==> r.None?)
      && (dir == Some(LeftToRight) || dir == Some(RightToLeft) ==>
            (r.None? <==> NoneEnabled(dir == Some(LeftToRight), true, enabled)
                          && NoneEnabled(dir == Some(LeftToRight), false, enabled)))
  {
    var r := DefaultSuggestion(anchor, dir, enabled);
    var sizes := [OneByOne, TwoByOne, FourByOne];
    if dir == Some(LeftToRight) || dir == Some(RightToLeft) {
      var top := dir == Some(LeftToRight);
      FirstEnabledOfAll(sizes, top, true, enabled);
      FirstEnabledOfAll(sizes, top, false, enabled);
      var a := FirstEnabled(sizes, top, true, enabled);
      var b := FirstEnabled(sizes, top, false, enabled);
      if enabled == {} {
        assert a.None? && b.None?;
      }
      if a.Some? {
        assert r.value.shape.size == sizes[a.value];
      } else if b.Some? {
        assert r.value.shape.size == sizes[b.value];
      }
    }
  }

  // ----- committing -----

  /** The anchor after `commit_slope`: the slope's right column for a
      ground slope and its left column for a ceiling slope; its upper row
      for an ascending slope and its lower row otherwise. */
  function AnchorAfter(seg: SlopeSegment): (a: Pos)
    ensures InFootprint(a, seg.shape, seg.origin)
    ensures a.0 == if seg.shape.top then seg.origin.0 + SizeWidth(seg.shape.size) - 1 else seg.origin.0
    ensures a.1 == if seg.shape.left then seg.origin.1 else seg.origin.1 + 1
  {
    var t := Name(seg.shape);
    WidthOfName(seg.shape);
    TopInName(seg.shape);
    LeftInName(seg.shape);
    var width := WidthFromName(t);
    var x := if Contains(t, "top") then seg.origin.0 + width - 1 else seg.origin.0;
    (x, if Contains(t, "left") then seg.origin.1 else seg.origin.1 + 1)
  }

  /** Committing a previewed slope moves the anchor across the slope: its
      full width to the right for a ground slope and to the left for a
      ceiling slope, one row up for an ascending slope and one row down for
      a descending one. Slopes committed one after another therefore join
      without a gap. */
  lemma CommitMovesAnchor(anchor: Pos, mouse: Pos, dir: Option<Heading>, enabled: set<SlopeShape>,
                          angle: (nat, nat) -> AngleClass)
    requires PreviewFor(anchor, mouse, dir, enabled, angle).preview.Some?
    ensures var s := PreviewFor(anchor, mouse, dir, enabled, angle).preview.value;
      var w := SizeWidth(s.shape.size);
      AnchorAfter(s) == (if s.shape.top then anchor.0 + w else anchor.0 - w,
                         if s.shape.left then anchor.1 - 1 else anchor.1 + 1)
  {
  }

  /** The same for the default suggestion. */
  lemma CommitSuggestionMovesAnchor(anchor: Pos, dir: Option<Heading>, enabled: set<SlopeShape>)
    requires DefaultSuggestion(anchor, dir, enabled).Some?
    ensures var s := DefaultSuggestion(anchor, dir, enabled).value;
      var w := SizeWidth(s.shape.size);
      AnchorAfter(s) == (if s.shape.top then anchor.0 + w else anchor.0 - w,
                         if s.shape.left then anchor.1 - 1 else anchor.1 + 1)
  {
  }

  /** The direction `toggle_slope_mode` records at the anchor on entry: the
      heading of the stroke's last move, or `initial_direction` when the
      stroke has a single point or the last move is not a move. */
  function CurrentDirection(path: seq<Pos>, initial: Option<Heading>): (h: Option<Heading>)
    requires |path| >= 1
    ensures |path| >= 2 && path[|path| - 1] != path[|path| - 2] ==> h.Some?
    ensures |path| >= 2 && path[|path| - 1].0 > path[|path| - 2].0 ==> h == Some(LeftToRight)
    ensures |path| >= 2 && path[|path| - 1].0 < path[|path| - 2].0 ==> h == Some(RightToLeft)
    ensures |path| < 2 ==> h == initial
  {
    if |path| >= 2 then MoveHeading(path[|path| - 2], path[|path| - 1], initial) else initial
  }
}
