/** Panel geometry: overlap of panels on the rack, and whether a place is free given
    what a plan has already removed and moved. Coordinates are reals; a size may be
    infinite, as the rack's own overlap test allows. */
module Layout {

  datatype Extent = Finite(length: real) | Infinite

  datatype Box = Box(x: real, y: real, w: Extent, h: Extent)

  datatype Grid = Grid(width: real, height: real)

  const ORIGIN_COLUMNS := 2000
  const ORIGIN_ROWS := 100

  /** A panel on the rack; one whose widget has no module carries no id. */
  datatype Occupant = Occupant(hasModuleId: bool, moduleId: int, box: Box)

  /** Whether the span of length `size` from `from` begins or still runs after `p`. */
  predicate RunsPast(p: real, from: real, size: Extent) {
    size.Infinite? || p < from + size.length
  }

  /** The rack's own overlap test: strict, so panels sharing an edge do not overlap. */
  predicate Intersects(a: Box, b: Box) {
    && RunsPast(a.x, b.x, b.w) && RunsPast(b.x, a.x, a.w)
    && RunsPast(a.y, b.y, b.h) && RunsPast(b.y, a.y, a.h)
  }

  ghost predicate Positive(e: Extent) {
    e.Finite? ==> e.length > 0.0
  }

  /** The points a panel covers: its left and top edges, not its right and bottom ones. */
  ghost predicate Covers(b: Box, x: real, y: real) {
    b.x <= x && RunsPast(x, b.x, b.w) && b.y <= y && RunsPast(y, b.y, b.h)
  }

  /** For panels of positive size the test means what it should: they overlap exactly
      when some point is covered by both. */
  lemma IntersectsIffSharedPoint(a: Box, b: Box)
    requires Positive(a.w) && Positive(a.h) && Positive(b.w) && Positive(b.h)
    ensures Intersects(a, b) <==> exists x, y :: Covers(a, x, y) && Covers(b, x, y)
  {
    if Intersects(a, b) {
      var x, y := if a.x <= b.x then b.x else a.x, if a.y <= b.y then b.y else a.y;
      assert Covers(a, x, y) && Covers(b, x, y);
    }
  }

  /** Grid coordinates to pixels, measured from the rack's origin cell. */
  function GridToPixel(gx: int, gy: int, grid: Grid): (real, real) {
    ((gx + ORIGIN_COLUMNS) as real * grid.width, (gy + ORIGIN_ROWS) as real * grid.height)
  }

  /** Where a panel stands once the plan's moves are made. */
  function PlannedBox(o: Occupant, planned: map<int, Box>): Box {
    if o.hasModuleId && o.moduleId in planned then planned[o.moduleId] else o.box
  }

  predicate Gone(o: Occupant, removed: seq<int>) {
    o.hasModuleId && o.moduleId in removed
  }

  /** `box` is clear of every panel but the one at `self`, as the plan leaves them. */
  ghost predicate IsFree(occupants: seq<Occupant>, self: int, box: Box, removed: seq<int>, planned: map<int, Box>) {
    forall i :: 0 <= i < |occupants| && i != self && !Gone(occupants[i], removed)
      ==> !Intersects(box, PlannedBox(occupants[i], planned))
  }

  method PositionFree(occupants: seq<Occupant>, self: int, box: Box, removed: seq<int>,
          planned: map<int, Box>) returns (free: bool)
    ensures free <==> IsFree(occupants, self, box, removed, planned)
  {
    for i := 0 to |occupants|
      invariant IsFree(occupants[..i], self, box, removed, planned)
    {
      if i != self {
        var other := occupants[i];
        var otherBox := other.box;
        if other.hasModuleId {
          if other.moduleId in removed {
            continue;
          }
          if other.moduleId in planned {
            otherBox := planned[other.moduleId];
          }
        }
        if Intersects(box, otherBox) {
          return false;
        }
      }
    }
    return true;
  }

  /** No two of the panels the plan leaves overlap. */
  ghost predicate NoOverlaps(occupants: seq<Occupant>, removed: seq<int>, planned: map<int, Box>) {
    forall i, j :: 0 <= i < j < |occupants| && !Gone(occupants[i], removed) && !Gone(occupants[j], removed)
      ==> !Intersects(PlannedBox(occupants[i], planned), PlannedBox(occupants[j], planned))
  }

  ghost predicate DistinctIds(occupants: seq<Occupant>) {
    forall i, j :: 0 <= i < j < |occupants| && occupants[i].hasModuleId && occupants[j].hasModuleId
      ==> occupants[i].moduleId != occupants[j].moduleId
  }

  /** Moving one panel to a place that is free creates no overlap. */
  lemma MoveKeepsNoOverlaps(occupants: seq<Occupant>, removed: seq<int>, planned: map<int, Box>, self: nat, box: Box)
    requires NoOverlaps(occupants, removed, planned) && DistinctIds(occupants)
    requires self < |occupants| && occupants[self].hasModuleId
    requires IsFree(occupants, self, box, removed, planned)
    ensures NoOverlaps(occupants, removed, planned[occupants[self].moduleId := box])
  {
    var id := occupants[self].moduleId;
    var planned' := planned[id := box];
    forall i, j | 0 <= i < j < |occupants| && !Gone(occupants[i], removed) && !Gone(occupants[j], removed)
      ensures !Intersects(PlannedBox(occupants[i], planned'), PlannedBox(occupants[j], planned'))
    {
      if i == self {
        assert PlannedBox(occupants[j], planned') == PlannedBox(occupants[j], planned);
      } else if j == self {
        assert PlannedBox(occupants[i], planned') == PlannedBox(occupants[i], planned);
      } else {
        assert PlannedBox(occupants[i], planned') == PlannedBox(occupants[i], planned);
        assert PlannedBox(occupants[j], planned') == PlannedBox(occupants[j], planned);
      }
    }
  }
}
