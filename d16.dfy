/**
 * Day 16: a light beam enters a grid of mirrors ('/', '\') and splitters
 * ('|', '-') and is reflected or split at each one; the cells it passes
 * through are "energised". The grid is stored as per-row and per-column
 * lists of obstacles, and the beam jumps straight to the nearest obstacle
 * ahead of it.
 */
module D16 {
  import opened Wrappers

  datatype ObstacleType = RightMirror | LeftMirror | VerticalSplitter | HorizontalSplitter
  datatype Obstacle = Obstacle(kind: ObstacleType, x: nat, y: nat)
  datatype Direction = Up | Down | Left | Right
  /** A beam leaving cell (x, y) in `direction`; x is the row, y the column. */
  datatype Beam = Beam(direction: Direction, x: nat, y: nat)
  /** Obstacles of each row (by row index) and of each column (by column index). */
  datatype Layout = Layout(rowMap: map<nat, seq<Obstacle>>, colMap: map<nat, seq<Obstacle>>)

  predicate Vertical(d: Direction) { d == Up || d == Down }

  function Opposite(d: Direction): Direction
  {
    match d
    case Up => Down
    case Down => Up
    case Left => Right
    case Right => Left
  }

  // ---------------------------------------------------------------------
  // Parsing
  // ---------------------------------------------------------------------

  function ObstacleOf(c: char): Option<ObstacleType>
  {
    match c
    case '/' => Some(RightMirror)
    case '\\' => Some(LeftMirror)
    case '|' => Some(VerticalSplitter)
    case '-' => Some(HorizontalSplitter)
    case _ => None
  }

  /** The obstacle at column y of row `line` (row index x), if any. */
  function CellObs(line: string, x: nat, y: nat): seq<Obstacle>
  {
    if y < |line| && ObstacleOf(line[y]).Some? then [Obstacle(ObstacleOf(line[y]).value, x, y)] else []
  }

  /** Obstacles among the first k characters of row x, left to right. */
  function RowObs(line: string, x: nat, k: nat): seq<Obstacle>
    requires k <= |line|
  {
    if k == 0 then [] else RowObs(line, x, k - 1) + CellObs(line, x, k - 1)
  }

  /** Obstacles of column y among the first k rows, top to bottom. */
  function ColObs(lines: seq<string>, y: nat, k: nat): seq<Obstacle>
    requires k <= |lines|
  {
    if k == 0 then [] else ColObs(lines, y, k - 1) + CellObs(lines[k - 1], k - 1, y)
  }

  lemma {:induction false} RowObsHas(line: string, x: nat, k: nat, o: Obstacle)
    requires k <= |line|
    ensures o in RowObs(line, x, k) <==> o.x == x && o.y < k && ObstacleOf(line[o.y]) == Some(o.kind)
  {
    if k > 0 {
      RowObsHas(line, x, k - 1, o);
    }
  }

  lemma {:induction false} ColObsHas(lines: seq<string>, y: nat, k: nat, o: Obstacle)
    requires k <= |lines|
    ensures o in ColObs(lines, y, k) <==>
      o.y == y && o.x < k && o.y < |lines[o.x]| && ObstacleOf(lines[o.x][o.y]) == Some(o.kind)
  {
    if k > 0 {
      ColObsHas(lines, y, k - 1, o);
    }
  }

  /** No obstacle of `line` lies right of column n - 1. */
  ghost predicate RowFits(line: string, n: nat)
  {
    forall y :: 0 <= y < |line| && ObstacleOf(line[y]).Some? ==> y < n
  }

  /** No obstacle lies right of column n - 1 (the width of the first row). */
  ghost predicate FitsWidth(lines: seq<string>, n: nat)
  {
    forall x :: 0 <= x < |lines| ==> RowFits(lines[x], n)
  }

  /** The layout holds, for every row and column of the grid, exactly its obstacles in order. */
  ghost predicate Parsed(lines: seq<string>, layout: Layout)
    requires |lines| > 0
  {
    (forall x: nat :: x in layout.rowMap <==> x < |lines|)
    && (forall y: nat :: y in layout.colMap <==> y < |lines[0]|)
    && (forall x :: x in layout.rowMap ==> layout.rowMap[x] == RowObs(lines[x], x, |lines[x]|))
    && (forall y :: y in layout.colMap ==> layout.colMap[y] == ColObs(lines, y, |lines|))
  }

  /**
   * The inner loop of the parse: pushes each obstacle of row x onto the row's
   * list and onto its column's list; a column without a list is a panic.
   */
  method ParseRow(line: string, x: nat, n: nat, colMap: map<nat, seq<Obstacle>>)
    returns (r: Option<(seq<Obstacle>, map<nat, seq<Obstacle>>)>)
    requires forall j: nat :: j in colMap <==> j < n
    ensures r.Some? <==> RowFits(line, n)
    ensures r.Some? ==> r.value.0 == RowObs(line, x, |line|)
    ensures r.Some? ==> forall j: nat :: j in r.value.1 <==> j < n
    ensures r.Some? ==> forall j :: 0 <= j < n ==> r.value.1[j] == colMap[j] + CellObs(line, x, j)
  {
    var row: seq<Obstacle> := [];
    var cols: map<nat, seq<Obstacle>> := colMap;
    for y := 0 to |line|
      invariant forall j: nat :: j in cols <==> j < n
      invariant row == RowObs(line, x, y)
      invariant forall j :: 0 <= j < n ==> cols[j] == colMap[j] + (if j < y then CellObs(line, x, j) else [])
      invariant forall j :: 0 <= j < y && ObstacleOf(line[j]).Some? ==> j < n
    {
      ghost var before := cols;
      var kind := ObstacleOf(line[y]);
      if kind.Some? {
        if y >= n {
          return None;
        }
        var o := Obstacle(kind.value, x, y);
        row := row + [o];
        cols := cols[y := cols[y] + [o]];
      }
      forall j | 0 <= j < n
        ensures cols[j] == colMap[j] + (if j < y + 1 then CellObs(line, x, j) else [])
      {
        if j == y {
          assert cols[j] == before[j] + CellObs(line, x, j);
        } else {
          assert cols[j] == before[j];
        }
      }
    }
    return Some((row, cols));
  }

  /** The lists of the rows before x are complete. */
  ghost predicate RowsParsed(lines: seq<string>, x: nat, m: nat, n: nat, rowMap: map<nat, seq<Obstacle>>)
  {
    x <= m == |lines|
    && (forall i: nat :: i in rowMap <==> i < m)
    && (forall i :: 0 <= i < x ==> rowMap[i] == RowObs(lines[i], i, |lines[i]|))
    && (forall i :: 0 <= i < x ==> RowFits(lines[i], n))
  }

  /** Every column list holds the obstacles of the rows before x. */
  ghost predicate ColsParsed(lines: seq<string>, x: nat, n: nat, colMap: map<nat, seq<Obstacle>>)
    requires x <= |lines|
  {
    (forall j: nat :: j in colMap <==> j < n)
    && (forall j :: 0 <= j < n ==> colMap[j] == ColObs(lines, j, x))
  }

  lemma RowsStep(lines: seq<string>, x: nat, m: nat, n: nat, rowMap: map<nat, seq<Obstacle>>, row: seq<Obstacle>)
    requires RowsParsed(lines, x, m, n, rowMap) && x < m
    requires RowFits(lines[x], n) && row == RowObs(lines[x], x, |lines[x]|)
    ensures RowsParsed(lines, x + 1, m, n, rowMap[x := row])
  {
    var r := rowMap[x := row];
    forall i | 0 <= i < x + 1
      ensures r[i] == RowObs(lines[i], i, |lines[i]|) && RowFits(lines[i], n)
    {
      if i < x {
        assert r[i] == rowMap[i];
      }
    }
  }

  lemma ColsStep(lines: seq<string>, x: nat, n: nat, colMap: map<nat, seq<Obstacle>>, cols: map<nat, seq<Obstacle>>)
    requires x < |lines| && ColsParsed(lines, x, n, colMap)
    requires forall j: nat :: j in cols <==> j < n
    requires forall j :: 0 <= j < n ==> cols[j] == colMap[j] + CellObs(lines[x], x, j)
    ensures ColsParsed(lines, x + 1, n, cols)
  {
  }

  /**
   * Builds the row and column obstacle lists; m is the number of rows and n
   * the length of the first row. An empty input (indexing the first row) and
   * an obstacle right of column n - 1 (a missing column list) are panics.
   */
  method ParseLines(lines: seq<string>) returns (r: Option<(nat, nat, Layout)>)
    ensures r.Some? <==> |lines| > 0 && FitsWidth(lines, |lines[0]|)
    ensures r.Some? ==> r.value.0 == |lines| && r.value.1 == |lines[0]| && Parsed(lines, r.value.2)
  {
    if |lines| == 0 {
      return None;
    }
    var m, n := |lines|, |lines[0]|;
    var rowMap: map<nat, seq<Obstacle>> := map[];
    var colMap: map<nat, seq<Obstacle>> := map[];
    for i := 0 to m
      invariant forall x: nat :: x in rowMap <==> x < i
      invariant forall x :: x in rowMap ==> rowMap[x] == []
    {
      rowMap := rowMap[i := []];
    }
    for j := 0 to n
      invariant forall y: nat :: y in colMap <==> y < j
      invariant forall y :: y in colMap ==> colMap[y] == []
    {
      colMap := colMap[j := []];
    }
    for x := 0 to m
      invariant RowsParsed(lines, x, m, n, rowMap) && ColsParsed(lines, x, n, colMap)
    {
      var parsedRow := ParseRow(lines[x], x, n, colMap);
      if parsedRow.None? {
        return None;
      }
      RowsStep(lines, x, m, n, rowMap, parsedRow.value.0);
      ColsStep(lines, x, n, colMap, parsedRow.value.1);
      rowMap := rowMap[x := parsedRow.value.0];
      colMap := parsedRow.value.1;
    }
    return Some((m, n, Layout(rowMap, colMap)));
  }

  /**
   * Every obstacle character of the grid is recorded in both its row list and
   * its column list, and nothing else is recorded.
   */
  lemma ParsedRecordsEveryObstacle(lines: seq<string>, layout: Layout, o: Obstacle)
    requires |lines| > 0 && FitsWidth(lines, |lines[0]|) && Parsed(lines, layout)
    ensures o.x in layout.rowMap && o in layout.rowMap[o.x] <==>
      o.x < |lines| && o.y < |lines[o.x]| && ObstacleOf(lines[o.x][o.y]) == Some(o.kind)
    ensures o.y in layout.colMap && o in layout.colMap[o.y] <==>
      o.x < |lines| && o.y < |lines[o.x]| && ObstacleOf(lines[o.x][o.y]) == Some(o.kind)
  {
    if o.x < |lines| {
      RowObsHas(lines[o.x], o.x, |lines[o.x]|, o);
    }
    if o.y < |lines[0]| {
      ColObsHas(lines, o.y, |lines|, o);
    }
  }

  /** Row lists hold obstacles of their row, column lists of their column, all inside the grid. */
  ghost predicate WellFormed(m: nat, n: nat, layout: Layout)
  {
    (forall x: nat :: x in layout.rowMap <==> x < m)
    && (forall y: nat :: y in layout.colMap <==> y < n)
    && (forall x, i :: x in layout.rowMap && 0 <= i < |layout.rowMap[x]| ==>
          layout.rowMap[x][i].x == x && layout.rowMap[x][i].y < n)
    && (forall y, i :: y in layout.colMap && 0 <= i < |layout.colMap[y]| ==>
          layout.colMap[y][i].y == y && layout.colMap[y][i].x < m)
  }

  lemma ParsedWellFormed(lines: seq<string>, layout: Layout)
    requires |lines| > 0 && FitsWidth(lines, |lines[0]|) && Parsed(lines, layout)
    ensures WellFormed(|lines|, |lines[0]|, layout)
  {
    forall x, i | x in layout.rowMap && 0 <= i < |layout.rowMap[x]|
      ensures layout.rowMap[x][i].x == x && layout.rowMap[x][i].y < |lines[0]|
    {
      RowObsHas(lines[x], x, |lines[x]|, layout.rowMap[x][i]);
    }
    forall y, i | y in layout.colMap && 0 <= i < |layout.colMap[y]|
      ensures layout.colMap[y][i].y == y && layout.colMap[y][i].x < |lines|
    {
      ColObsHas(lines, y, |lines|, layout.colMap[y][i]);
    }
  }

  // ---------------------------------------------------------------------
  // Reflection and splitting
  // ---------------------------------------------------------------------

  predicate Perpendicular(a: Direction, b: Direction) { Vertical(a) != Vertical(b) }

  /**
   * The directions leaving an obstacle hit by a beam moving in `d`, in the
   * order the beams are pushed: a splitter hit across pushes its second
   * half first.
   */
  function Outgoing(kind: ObstacleType, d: Direction): (r: seq<Direction>)
    ensures 1 <= |r| <= 2
    ensures (kind == RightMirror || kind == LeftMirror) ==> |r| == 1 && Perpendicular(r[0], d)
    ensures |r| == 2 <==>
      (kind == VerticalSplitter && !Vertical(d)) || (kind == HorizontalSplitter && Vertical(d))
    ensures |r| == 2 ==> r[1] == Opposite(r[0]) && Perpendicular(r[0], d)
    ensures (kind == VerticalSplitter || kind == HorizontalSplitter) && |r| == 1 ==> r == [d]
  {
    match kind
    case RightMirror =>
      (match d
       case Right => [Up]
       case Left => [Down]
       case Up => [Right]
       case Down => [Left])
    case LeftMirror =>
      (match d
       case Right => [Down]
       case Left => [Up]
       case Up => [Left]
       case Down => [Right])
    case VerticalSplitter => if d == Right || d == Left then [Down, Up] else [d]
    case HorizontalSplitter => if d == Up || d == Down then [Left, Right] else [d]
  }

  /**
   * Mirrors are reversible: a beam sent back along the reflected direction
   * leaves along the opposite of the incoming one. '/' sends Right to Up and
   * Up to Right; '\' sends Right to Down and Down to Right.
   */
  lemma MirrorReversible(kind: ObstacleType, d: Direction)
    requires kind == RightMirror || kind == LeftMirror
    ensures Outgoing(kind, Opposite(Outgoing(kind, d)[0])) == [Opposite(d)]
    ensures Outgoing(RightMirror, Right) == [Up] && Outgoing(RightMirror, Up) == [Right]
    ensures Outgoing(LeftMirror, Right) == [Down] && Outgoing(LeftMirror, Down) == [Right]
  {
  }

  // ---------------------------------------------------------------------
  // Moving one beam
  // ---------------------------------------------------------------------

  predicate InGrid(m: nat, n: nat, b: Beam) { b.x < m && b.y < n }

  /** o lies ahead of b on its lane; the start cell counts only when inclusive. */
  predicate Ahead(o: Obstacle, b: Beam, inclusive: bool)
  {
    match b.direction
    case Up => if inclusive then o.x <= b.x else o.x < b.x
    case Down => if inclusive then o.x >= b.x else o.x > b.x
    case Left => if inclusive then o.y <= b.y else o.y < b.y
    case Right => if inclusive then o.y >= b.y else o.y > b.y
  }

  /** Steps from b to c along b's direction (negative when c is behind). */
  function Offset(b: Beam, x: int, y: int): int
  {
    match b.direction
    case Up => b.x - x
    case Down => x - b.x
    case Left => b.y - y
    case Right => y - b.y
  }

  /** The obstacles that can stop b: its column when vertical, its row otherwise. */
  function Lane(layout: Layout, b: Beam): seq<Obstacle>
    requires b.x in layout.rowMap && b.y in layout.colMap
  {
    if Vertical(b.direction) then layout.colMap[b.y] else layout.rowMap[b.x]
  }

  /**
   * The nearest obstacle ahead (the filter followed by `min_by_key`; the
   * first of several at the same distance), or None when nothing is ahead.
   */
  function Nearest(obs: seq<Obstacle>, b: Beam, inclusive: bool): (r: Option<Obstacle>)
    ensures r.None? <==> forall i :: 0 <= i < |obs| ==> !Ahead(obs[i], b, inclusive)
    ensures r.Some? ==> r.value in obs && Ahead(r.value, b, inclusive)
    ensures r.Some? ==> forall i :: 0 <= i < |obs| && Ahead(obs[i], b, inclusive) ==>
      Offset(b, r.value.x, r.value.y) <= Offset(b, obs[i].x, obs[i].y)
  {
    if obs == [] then None
    else
      var rest := Nearest(obs[1..], b, inclusive);
      assert forall i :: 1 <= i < |obs| ==> obs[i] == obs[1..][i - 1];
      if !Ahead(obs[0], b, inclusive) then rest
      else if rest.Some? && Offset(b, rest.value.x, rest.value.y) < Offset(b, obs[0].x, obs[0].y) then rest
      else Some(obs[0])
  }

  /** The point where the beam stops: the obstacle, or the grid edge ahead. */
  function LastPoint(m: nat, n: nat, b: Beam, stop: Option<Obstacle>): (int, int)
  {
    if stop.Some? then (stop.value.x, stop.value.y)
    else match b.direction
      case Up => (0, b.y)
      case Down => (m - 1, b.y)
      case Left => (b.x, 0)
      case Right => (b.x, n - 1)
  }

  /**
   * The half-open range of rows (vertical beam) or columns (horizontal beam)
   * the beam marks: from its own cell to the last point, leaving out an
   * obstacle cell and keeping an edge cell.
   */
  function Range(m: nat, n: nat, b: Beam, stop: Option<Obstacle>): (int, int)
  {
    var last := LastPoint(m, n, b, stop);
    var blocked := stop.Some?;
    match b.direction
    case Up => (if blocked then last.0 + 1 else last.0, b.x + 1)
    case Down => (b.x, if blocked then last.0 else last.0 + 1)
    case Left => (if blocked then last.1 + 1 else last.1, b.y + 1)
    case Right => (b.y, if blocked then last.1 else last.1 + 1)
  }

  /** The beam state recorded for position i of b's lane. */
  function LaneCell(b: Beam, i: nat): Beam
  {
    if Vertical(b.direction) then Beam(b.direction, i, b.y) else Beam(b.direction, b.x, i)
  }

  /** The beam states b marks as visited. */
  function Marked(m: nat, n: nat, b: Beam, stop: Option<Obstacle>): set<Beam>
  {
    var (lo, hi) := Range(m, n, b, stop);
    set i: nat | lo <= i < hi :: LaneCell(b, i)
  }

  /** The beams b hands on: one per outgoing direction, at the obstacle's cell. */
  function Pushed(b: Beam, stop: Option<Obstacle>): seq<Beam>
  {
    if stop.None? then []
    else
      var o := stop.value;
      var ds := Outgoing(o.kind, b.direction);
      if |ds| == 1 then [Beam(ds[0], o.x, o.y)] else [Beam(ds[0], o.x, o.y), Beam(ds[1], o.x, o.y)]
  }

  predicate SameLane(b: Beam, c: Beam)
  {
    c.direction == b.direction && if Vertical(b.direction) then c.y == b.y else c.x == b.x
  }

  /**
   * What a beam marks, independently of the ranges: the states on its lane,
   * in its direction, from its own cell up to but not including the obstacle
   * that stops it, or up to the grid edge when nothing does.
   */
  lemma MarkedMeaning(m: nat, n: nat, b: Beam, stop: Option<Obstacle>, c: Beam)
    requires InGrid(m, n, b)
    requires stop.Some? ==> SameLane(b, Beam(b.direction, stop.value.x, stop.value.y))
    requires stop.Some? ==> Offset(b, stop.value.x, stop.value.y) >= 0 && InGrid(m, n, Beam(b.direction, stop.value.x, stop.value.y))
    ensures c in Marked(m, n, b, stop) <==>
      SameLane(b, c) && 0 <= Offset(b, c.x, c.y)
      && (if stop.Some? then Offset(b, c.x, c.y) < Offset(b, stop.value.x, stop.value.y) else InGrid(m, n, c))
  {
    var (lo, hi) := Range(m, n, b, stop);
    if c in Marked(m, n, b, stop) {
      var i: nat :| lo <= i < hi && c == LaneCell(b, i);
    }
    if SameLane(b, c) && 0 <= Offset(b, c.x, c.y)
      && (if stop.Some? then Offset(b, c.x, c.y) < Offset(b, stop.value.x, stop.value.y) else InGrid(m, n, c))
    {
      var i := if Vertical(b.direction) then c.x else c.y;
      assert lo <= i < hi && c == LaneCell(b, i);
    }
  }

  /** A beam marks its own cell unless an obstacle stops it there (only possible for the first beam). */
  lemma MarkedStart(m: nat, n: nat, b: Beam, stop: Option<Obstacle>)
    requires InGrid(m, n, b)
    requires stop.Some? ==> SameLane(b, Beam(b.direction, stop.value.x, stop.value.y))
    requires stop.Some? ==> Offset(b, stop.value.x, stop.value.y) >= 0 && InGrid(m, n, Beam(b.direction, stop.value.x, stop.value.y))
    ensures b in Marked(m, n, b, stop) <==> !(stop.Some? && stop.value.x == b.x && stop.value.y == b.y)
    ensures stop.Some? && stop.value.x == b.x && stop.value.y == b.y ==> Marked(m, n, b, stop) == {}
  {
    MarkedMeaning(m, n, b, stop, b);
    if stop.Some? && stop.value.x == b.x && stop.value.y == b.y {
      forall c | c in Marked(m, n, b, stop) ensures false {
        MarkedMeaning(m, n, b, stop, c);
      }
    }
  }

  /** Everything a beam inside the grid marks or hands on lies inside the grid. */
  lemma ShootInGrid(m: nat, n: nat, layout: Layout, b: Beam, inclusive: bool)
    requires WellFormed(m, n, layout) && InGrid(m, n, b)
    ensures var stop := Nearest(Lane(layout, b), b, inclusive);
      (forall c :: c in Marked(m, n, b, stop) ==> InGrid(m, n, c))
      && (forall k :: 0 <= k < |Pushed(b, stop)| ==> InGrid(m, n, Pushed(b, stop)[k]))
      && (stop.Some? ==> SameLane(b, Beam(b.direction, stop.value.x, stop.value.y)))
      && (stop.Some? ==> Offset(b, stop.value.x, stop.value.y) >= 0 && InGrid(m, n, Beam(b.direction, stop.value.x, stop.value.y)))
  {
    var stop := Nearest(Lane(layout, b), b, inclusive);
    if stop.Some? {
      var lane := Lane(layout, b);
      var i :| 0 <= i < |lane| && lane[i] == stop.value;
    }
    forall c | c in Marked(m, n, b, stop) ensures InGrid(m, n, c) {
      MarkedMeaning(m, n, b, stop, c);
    }
  }

  /** Adds the states of `dir` at lane positions lo .. hi - 1 (the source's marking loops). */
  method MarkRange(visited: set<Beam>, b: Beam, lo: int, hi: int) returns (v: set<Beam>)
    requires 0 <= lo
    ensures v == visited + set i: nat | lo <= i < hi :: LaneCell(b, i)
  {
    v := visited;
    if hi <= lo {
      return;
    }
    for i := lo to hi
      invariant v == visited + set k: nat | lo <= k < i :: LaneCell(b, k)
    {
      v := v + {LaneCell(b, i)};
    }
  }

  /**
   * Processes one beam: finds the obstacle that stops it, hands on the
   * beams leaving that obstacle and marks the states it passes.
   */
  method Shoot(m: nat, n: nat, layout: Layout, b: Beam, inclusive: bool, visited: set<Beam>)
    returns (pushed: seq<Beam>, v: set<Beam>)
    requires WellFormed(m, n, layout) && InGrid(m, n, b)
    ensures pushed == Pushed(b, Nearest(Lane(layout, b), b, inclusive))
    ensures v == visited + Marked(m, n, b, Nearest(Lane(layout, b), b, inclusive))
  {
    var stop := Nearest(Lane(layout, b), b, inclusive);
    pushed := [];
    if stop.Some? {
      var o := stop.value;
      var newBeam := Beam(b.direction, o.x, o.y);
      match o.kind {
      case RightMirror =>
        newBeam := newBeam.(direction := match b.direction
          case Right => Up
          case Left => Down
          case Up => Right
          case Down => Left);
      case LeftMirror =>
        newBeam := newBeam.(direction := match b.direction
          case Right => Down
          case Left => Up
          case Up => Left
          case Down => Right);
      case VerticalSplitter =>
        if b.direction == Right || b.direction == Left {
          newBeam := newBeam.(direction := Up);
          pushed := pushed + [Beam(Down, o.x, o.y)];
        }
      case HorizontalSplitter =>
        if b.direction == Up || b.direction == Down {
          newBeam := newBeam.(direction := Right);
          pushed := pushed + [Beam(Left, o.x, o.y)];
        }
      }
      pushed := pushed + [newBeam];
    }
    var (lo, hi) := Range(m, n, b, stop);
    v := MarkRange(visited, b, lo, hi);
  }

  // ---------------------------------------------------------------------
  // The simulation
  // ---------------------------------------------------------------------

  function Dirs(): set<Direction> { {Up, Down, Left, Right} }

  /** All beam states of an m x n grid (finite, so the simulation ends). */
  function Space(m: nat, n: nat): set<Beam>
  {
    set d, x: nat, y: nat | d in Dirs() && x < m && y < n :: Beam(d, x, y)
  }

  lemma InSpace(m: nat, n: nat, b: Beam)
    requires InGrid(m, n, b)
    ensures b in Space(m, n)
  {
    assert b.direction == Up || b.direction == Down || b.direction == Left || b.direction == Right;
  }

  /** The obstacle that stops a beam leaving b (None: it runs to the grid edge). */
  function Stop(layout: Layout, b: Beam, inclusive: bool): Option<Obstacle>
    requires b.x in layout.rowMap && b.y in layout.colMap
  {
    Nearest(Lane(layout, b), b, inclusive)
  }

  /** The cells of a set of beam states. */
  function Cells(states: set<Beam>): set<(nat, nat)>
  {
    set c | c in states :: (c.x, c.y)
  }

  /**
   * V is closed under the simulation from `initial`: it holds what the first
   * beam marks (an obstacle on its own cell stopping it) and every beam the
   * first beam hands on, and for each of its states, what a beam leaving that
   * state marks and every beam it hands on.
   */
  ghost predicate ClosedFrom(m: nat, n: nat, layout: Layout, initial: Beam, V: set<Beam>)
    requires WellFormed(m, n, layout) && InGrid(m, n, initial)
  {
    var stop0 := Stop(layout, initial, true);
    Marked(m, n, initial, stop0) <= V
    && (forall p :: p in Pushed(initial, stop0) ==> p in V)
    && forall c :: c in V ==>
         InGrid(m, n, c) && Marked(m, n, c, Stop(layout, c, false)) <= V
         && forall p :: p in Pushed(c, Stop(layout, c, false)) ==> p in V
  }

  /**
   * The energised states: those lying in every closed set, that is, the
   * least set of states closed under the simulation from `initial`.
   */
  ghost function Energised(m: nat, n: nat, layout: Layout, initial: Beam): set<Beam>
    requires WellFormed(m, n, layout) && InGrid(m, n, initial)
  {
    set c | c in Space(m, n) && forall V :: ClosedFrom(m, n, layout, initial, V) ==> c in V
  }

  /** Two beams going the same way see every point shifted by the offset between them. */
  lemma {:induction false} NearestShift(obs: seq<Obstacle>, b: Beam, inclusive: bool, c: Beam)
    requires c.direction == b.direction
    requires forall i :: 0 <= i < |obs| ==> (Ahead(obs[i], c, false) <==> Ahead(obs[i], b, inclusive))
    ensures Nearest(obs, c, false) == Nearest(obs, b, inclusive)
  {
    if obs != [] {
      assert forall i :: 1 <= i < |obs| ==> obs[i] == obs[1..][i - 1];
      NearestShift(obs[1..], b, inclusive, c);
    }
  }

  /**
   * A state that a beam marks goes on exactly as that beam does: a beam
   * leaving it meets the same obstacle (or the same edge), so it marks
   * nothing that beam did not mark and hands on the same beams.
   */
  lemma MarkedOnward(m: nat, n: nat, layout: Layout, b: Beam, inclusive: bool, c: Beam)
    requires WellFormed(m, n, layout) && InGrid(m, n, b)
    requires c in Marked(m, n, b, Stop(layout, b, inclusive))
    ensures InGrid(m, n, c)
    ensures Stop(layout, c, false) == Stop(layout, b, inclusive)
    ensures Marked(m, n, c, Stop(layout, c, false)) <= Marked(m, n, b, Stop(layout, b, inclusive))
    ensures Pushed(c, Stop(layout, c, false)) == Pushed(b, Stop(layout, b, inclusive))
  {
    var stop := Stop(layout, b, inclusive);
    ShootInGrid(m, n, layout, b, inclusive);
    MarkedMeaning(m, n, b, stop, c);
    var lane := Lane(layout, b);
    assert Lane(layout, c) == lane;
    forall i | 0 <= i < |lane|
      ensures Ahead(lane[i], c, false) <==> Ahead(lane[i], b, inclusive)
    {
      if Ahead(lane[i], b, inclusive) {
        assert Offset(b, stop.value.x, stop.value.y) <= Offset(b, lane[i].x, lane[i].y);
      }
    }
    NearestShift(lane, b, inclusive, c);
    forall e | e in Marked(m, n, c, stop)
      ensures e in Marked(m, n, b, stop)
    {
      MarkedMeaning(m, n, c, stop, e);
      MarkedMeaning(m, n, b, stop, e);
    }
  }

  /** The energised states are themselves closed. */
  lemma EnergisedClosed(m: nat, n: nat, layout: Layout, initial: Beam)
    requires WellFormed(m, n, layout) && InGrid(m, n, initial)
    ensures ClosedFrom(m, n, layout, initial, Energised(m, n, layout, initial))
  {
    var e := Energised(m, n, layout, initial);
    var stop0 := Stop(layout, initial, true);
    ShootInGrid(m, n, layout, initial, true);
    forall d | d in Marked(m, n, initial, stop0)
      ensures d in e
    {
      InSpace(m, n, d);
    }
    forall p | p in Pushed(initial, stop0)
      ensures p in e
    {
      var k :| 0 <= k < |Pushed(initial, stop0)| && Pushed(initial, stop0)[k] == p;
      InSpace(m, n, p);
    }
    forall c | c in e
      ensures InGrid(m, n, c) && Marked(m, n, c, Stop(layout, c, false)) <= e
      ensures forall p :: p in Pushed(c, Stop(layout, c, false)) ==> p in e
    {
      ShootInGrid(m, n, layout, c, false);
      var stop := Stop(layout, c, false);
      forall d | d in Marked(m, n, c, stop)
        ensures d in e
      {
        InSpace(m, n, d);
        forall V | ClosedFrom(m, n, layout, initial, V)
          ensures d in V
        {
          assert c in V;
        }
      }
      forall p | p in Pushed(c, stop)
        ensures p in e
      {
        var k :| 0 <= k < |Pushed(c, stop)| && Pushed(c, stop)[k] == p;
        InSpace(m, n, p);
        forall V | ClosedFrom(m, n, layout, initial, V)
          ensures p in V
        {
          assert c in V;
        }
      }
    }
  }

  /** The starting cell is energised: by the first beam itself, or by a beam leaving an obstacle there. */
  lemma EnergisedStart(m: nat, n: nat, layout: Layout, initial: Beam)
    requires WellFormed(m, n, layout) && InGrid(m, n, initial)
    ensures (initial.x, initial.y) in Cells(Energised(m, n, layout, initial))
    ensures forall c :: c in Cells(Energised(m, n, layout, initial)) ==> c.0 < m && c.1 < n
  {
    var e := Energised(m, n, layout, initial);
    EnergisedClosed(m, n, layout, initial);
    var stop := Stop(layout, initial, true);
    ShootInGrid(m, n, layout, initial, true);
    MarkedStart(m, n, initial, stop);
    if stop.Some? && stop.value.x == initial.x && stop.value.y == initial.y {
      assert Pushed(initial, stop)[0] in e;
    } else {
      assert initial in e;
    }
  }

  /** A beam counted as energised by the simulation steps stays so: what it marks and hands on is energised. */
  lemma EnergisedSteps(m: nat, n: nat, layout: Layout, initial: Beam, b: Beam, inclusive: bool)
    requires WellFormed(m, n, layout) && InGrid(m, n, initial) && InGrid(m, n, b)
    requires if inclusive then b == initial else b in Energised(m, n, layout, initial)
    ensures Marked(m, n, b, Stop(layout, b, inclusive)) <= Energised(m, n, layout, initial)
    ensures forall p :: p in Pushed(b, Stop(layout, b, inclusive)) ==> p in Energised(m, n, layout, initial)
  {
    EnergisedClosed(m, n, layout, initial);
  }

  /**
   * Nothing is left behind: what a beam leaving a visited state marks is
   * visited, and each beam it hands on is visited or still pending.
   */
  ghost predicate Covers(m: nat, n: nat, layout: Layout, visited: set<Beam>, pending: seq<Beam>)
    requires WellFormed(m, n, layout)
  {
    forall c :: c in visited ==>
      InGrid(m, n, c) && Marked(m, n, c, Stop(layout, c, false)) <= visited
      && forall p :: p in Pushed(c, Stop(layout, c, false)) ==> p in visited || p in pending
  }

  /** The first beam has been processed: what it marks is visited, what it hands on visited or pending. */
  ghost predicate StartCovered(m: nat, n: nat, layout: Layout, initial: Beam, visited: set<Beam>, pending: seq<Beam>)
    requires WellFormed(m, n, layout) && InGrid(m, n, initial)
  {
    var stop0 := Stop(layout, initial, true);
    Marked(m, n, initial, stop0) <= visited
    && forall p :: p in Pushed(initial, stop0) ==> p in visited || p in pending
  }

  /** Skipping an already visited beam leaves nothing behind. */
  lemma SkipCovers(m: nat, n: nat, layout: Layout, initial: Beam, visited: set<Beam>,
                   newBeams: seq<Beam>, b: Beam, rest: seq<Beam>)
    requires WellFormed(m, n, layout) && InGrid(m, n, initial) && b in visited
    requires Covers(m, n, layout, visited, newBeams + ([b] + rest))
    ensures Covers(m, n, layout, visited, newBeams + rest)
    ensures StartCovered(m, n, layout, initial, visited, newBeams + ([b] + rest)) ==>
      StartCovered(m, n, layout, initial, visited, newBeams + rest)
  {
  }

  /**
   * Processing a pending beam leaves nothing behind: the states it marks
   * go on as it does, and the beams it hands on become pending. Only the
   * first beam, with nothing visited yet, looks at its own cell.
   */
  lemma ProcessCovers(m: nat, n: nat, layout: Layout, initial: Beam, visited: set<Beam>,
                      newBeams: seq<Beam>, b: Beam, rest: seq<Beam>, inclusive: bool)
    requires WellFormed(m, n, layout) && InGrid(m, n, initial) && InGrid(m, n, b) && b !in visited
    requires inclusive ==> visited == {} && b == initial
    requires Covers(m, n, layout, visited, newBeams + ([b] + rest))
    requires !inclusive ==> StartCovered(m, n, layout, initial, visited, newBeams + ([b] + rest))
    ensures !inclusive ==> b in Marked(m, n, b, Stop(layout, b, inclusive))
    ensures Covers(m, n, layout, visited + Marked(m, n, b, Stop(layout, b, inclusive)),
                   newBeams + Pushed(b, Stop(layout, b, inclusive)) + rest)
    ensures StartCovered(m, n, layout, initial, visited + Marked(m, n, b, Stop(layout, b, inclusive)),
                         newBeams + Pushed(b, Stop(layout, b, inclusive)) + rest)
  {
    var stop := Stop(layout, b, inclusive);
    var v := visited + Marked(m, n, b, stop);
    var pending := newBeams + Pushed(b, stop) + rest;
    ShootInGrid(m, n, layout, b, inclusive);
    MarkedStart(m, n, b, stop);
    forall c | c in v
      ensures InGrid(m, n, c) && Marked(m, n, c, Stop(layout, c, false)) <= v
      ensures forall p :: p in Pushed(c, Stop(layout, c, false)) ==> p in v || p in pending
    {
      if c !in visited {
        MarkedOnward(m, n, layout, b, inclusive, c);
      }
    }
  }

  /** With nothing pending, a covered set is closed. */
  lemma CoveredClosed(m: nat, n: nat, layout: Layout, initial: Beam, visited: set<Beam>)
    requires WellFormed(m, n, layout) && InGrid(m, n, initial)
    requires Covers(m, n, layout, visited, []) && StartCovered(m, n, layout, initial, visited, [])
    ensures ClosedFrom(m, n, layout, initial, visited)
  {
  }

  /**
   * Shoots a pending beam not yet visited, within a round: its marks join
   * the visited states and the beams it hands on join the next round's.
   */
  method ShootPending(m: nat, n: nat, layout: Layout, initial: Beam, b: Beam, ghost rest: seq<Beam>,
                      inclusive: bool, visited: set<Beam>, newBeams: seq<Beam>)
    returns (visited': set<Beam>, newBeams': seq<Beam>)
    requires WellFormed(m, n, layout) && InGrid(m, n, initial) && InGrid(m, n, b) && b !in visited
    requires if inclusive then visited == {} && b == initial else b in Energised(m, n, layout, initial)
    requires visited <= Energised(m, n, layout, initial)
    requires forall p :: p in newBeams ==> InGrid(m, n, p) && p in Energised(m, n, layout, initial)
    requires Covers(m, n, layout, visited, newBeams + ([b] + rest))
    requires !inclusive ==> StartCovered(m, n, layout, initial, visited, newBeams + ([b] + rest))
    ensures visited' == visited + Marked(m, n, b, Stop(layout, b, inclusive))
    ensures newBeams' == newBeams + Pushed(b, Stop(layout, b, inclusive))
    ensures !inclusive ==> visited < visited'
    ensures visited' <= Energised(m, n, layout, initial)
    ensures forall p :: p in newBeams' ==> InGrid(m, n, p) && p in Energised(m, n, layout, initial)
    ensures Covers(m, n, layout, visited', newBeams' + rest)
    ensures StartCovered(m, n, layout, initial, visited', newBeams' + rest)
  {
    var pushed;
    pushed, visited' := Shoot(m, n, layout, b, inclusive, visited);
    ProcessCovers(m, n, layout, initial, visited, newBeams, b, rest, inclusive);
    EnergisedSteps(m, n, layout, initial, b, inclusive);
    ShootInGrid(m, n, layout, b, inclusive);
    newBeams' := newBeams + pushed;
  }

  /**
   * One round of the simulation: processes the pending beams in order,
   * skipping states already visited, and collects the beams they hand on.
   * Only the very first beam looks for an obstacle on its own cell. The
   * round keeps everything inside the energised states, leaves nothing
   * behind, and, unless it is the first, either visits a new state or
   * hands on nothing.
   */
  method SimulateRound(m: nat, n: nat, layout: Layout, initial: Beam, beams: seq<Beam>,
                       visited0: set<Beam>, isBeginning0: bool)
    returns (newBeams: seq<Beam>, visited: set<Beam>, isBeginning: bool)
    requires WellFormed(m, n, layout) && InGrid(m, n, initial) && beams != []
    requires isBeginning0 ==> visited0 == {} && beams == [initial]
    requires forall k :: 0 <= k < |beams| ==> InGrid(m, n, beams[k])
    requires visited0 <= Energised(m, n, layout, initial)
    requires !isBeginning0 ==> forall p :: p in beams ==> p in Energised(m, n, layout, initial)
    requires Covers(m, n, layout, visited0, beams)
    requires !isBeginning0 ==> StartCovered(m, n, layout, initial, visited0, beams)
    ensures !isBeginning
    ensures visited0 <= visited <= Energised(m, n, layout, initial)
    ensures forall k :: 0 <= k < |newBeams| ==> InGrid(m, n, newBeams[k])
    ensures forall p :: p in newBeams ==> p in Energised(m, n, layout, initial)
    ensures Covers(m, n, layout, visited, newBeams)
    ensures StartCovered(m, n, layout, initial, visited, newBeams)
    ensures !isBeginning0 && newBeams != [] ==> visited0 < visited
  {
    ghost var e := Energised(m, n, layout, initial);
    newBeams, visited, isBeginning := [], visited0, isBeginning0;
    for k := 0 to |beams|
      invariant k == 0 ==> isBeginning == isBeginning0 && visited == visited0 && newBeams == []
      invariant k > 0 ==> !isBeginning
      invariant visited0 <= visited <= e
      invariant forall p :: p in newBeams ==> InGrid(m, n, p) && p in e
      invariant Covers(m, n, layout, visited, newBeams + beams[k..])
      invariant !isBeginning ==> StartCovered(m, n, layout, initial, visited, newBeams + beams[k..])
      invariant !isBeginning0 && newBeams != [] ==> visited0 < visited
    {
      var b := beams[k];
      assert beams[k..] == [b] + beams[k + 1..];
      if b in visited {
        SkipCovers(m, n, layout, initial, visited, newBeams, b, beams[k + 1..]);
        continue;
      }
      var inclusive := isBeginning;
      visited, newBeams := ShootPending(m, n, layout, initial, b, beams[k + 1..], inclusive, visited, newBeams);
      isBeginning := false;
    }
    assert beams[|beams|..] == [];
    assert newBeams + [] == newBeams;
  }

  /**
   * Runs the beam from `initial` round by round: each round processes every
   * beam handed on by the previous one. The loop ends because every round
   * after the first either visits a new state of the finite space or hands
   * on nothing, and what it has visited then is exactly the energised
   * states: nothing outside them, and, since nothing is left pending,
   * a closed set.
   */
  method SimulateBeam(m: nat, n: nat, layout: Layout, initial: Beam) returns (energised: set<(nat, nat)>)
    requires WellFormed(m, n, layout) && InGrid(m, n, initial)
    ensures energised == Cells(Energised(m, n, layout, initial))
    ensures forall c :: c in energised ==> c.0 < m && c.1 < n
    ensures (initial.x, initial.y) in energised
  {
    ghost var e := Energised(m, n, layout, initial);
    var beams: seq<Beam> := [initial];
    var visited: set<Beam> := {};
    var isBeginning := true;
    while beams != []
      invariant isBeginning ==> visited == {} && beams == [initial]
      invariant visited <= e
      invariant forall k :: 0 <= k < |beams| ==> InGrid(m, n, beams[k])
      invariant !isBeginning ==> forall p :: p in beams ==> p in e
      invariant Covers(m, n, layout, visited, beams)
      invariant !isBeginning ==> StartCovered(m, n, layout, initial, visited, beams)
      decreases (if isBeginning then 1 else 0), Space(m, n) - visited, |beams|
    {
      ghost var wasBeginning, visited0 := isBeginning, visited;
      beams, visited, isBeginning := SimulateRound(m, n, layout, initial, beams, visited, isBeginning);
      assert visited <= Space(m, n);
      assert !wasBeginning && beams != [] ==> Space(m, n) - visited < Space(m, n) - visited0;
    }
    CoveredClosed(m, n, layout, initial, visited);
    assert visited == e;
    energised := set c | c in visited :: (c.x, c.y);
    EnergisedStart(m, n, layout, initial);
  }

  // ---------------------------------------------------------------------
  // The two parts
  // ---------------------------------------------------------------------

  /** An edge beam: inside the grid, on the edge it enters through, pointing inwards. */
  predicate EntersGrid(m: nat, n: nat, b: Beam)
  {
    InGrid(m, n, b)
    && match b.direction
      case Right => b.y == 0
      case Left => b.y == n - 1
      case Down => b.x == 0
      case Up => b.x == m - 1
  }

  /**
   * All beams entering the grid from its four edges: two per row, two per
   * column, each exactly once. `n - 1` and `m - 1` underflow (panic) when
   * exactly one of m and n is zero.
   */
  method GetBeamsFromAllDirs(m: nat, n: nat) returns (r: seq<Beam>)
    requires (m == 0) == (n == 0)
    ensures |r| == 2 * m + 2 * n
    ensures forall k :: 0 <= k < |r| ==> EntersGrid(m, n, r[k])
    ensures forall b :: EntersGrid(m, n, b) ==> b in r
    ensures forall k, l :: 0 <= k < l < |r| ==> r[k] != r[l]
  {
    r := [];
    for i := 0 to m
      invariant |r| == 2 * i
      invariant forall k :: 0 <= k < i ==> r[2 * k] == Beam(Right, k, 0) && r[2 * k + 1] == Beam(Left, k, n - 1)
    {
      r := r + [Beam(Right, i, 0), Beam(Left, i, n - 1)];
    }
    for j := 0 to n
      invariant |r| == 2 * m + 2 * j
      invariant forall k :: 0 <= k < m ==> r[2 * k] == Beam(Right, k, 0) && r[2 * k + 1] == Beam(Left, k, n - 1)
      invariant forall k :: 0 <= k < j ==> r[2 * m + 2 * k] == Beam(Down, 0, k) && r[2 * m + 2 * k + 1] == Beam(Up, m - 1, k)
    {
      r := r + [Beam(Down, 0, j), Beam(Up, m - 1, j)];
    }
    EdgeBeamsShape(m, n, r);
  }

  /** The k-th edge beam: two per row (rightwards, leftwards), then two per column (down, up). */
  function EdgeAt(m: nat, n: nat, k: nat): Beam
    requires 0 < m && 0 < n
  {
    if k < 2 * m then
      (if k % 2 == 0 then Beam(Right, k / 2, 0) else Beam(Left, k / 2, n - 1))
    else
      (if k % 2 == 0 then Beam(Down, 0, (k - 2 * m) / 2) else Beam(Up, m - 1, (k - 2 * m) / 2))
  }

  lemma EdgeAtIndex(m: nat, n: nat, r: seq<Beam>, k: nat)
    requires 0 < m && 0 < n
    requires |r| == 2 * m + 2 * n && k < |r|
    requires forall k :: 0 <= k < m ==> r[2 * k] == Beam(Right, k, 0) && r[2 * k + 1] == Beam(Left, k, n - 1)
    requires forall k :: 0 <= k < n ==> r[2 * m + 2 * k] == Beam(Down, 0, k) && r[2 * m + 2 * k + 1] == Beam(Up, m - 1, k)
    ensures r[k] == EdgeAt(m, n, k)
  {
    if k < 2 * m {
      var j := k / 2;
      assert k == 2 * j || k == 2 * j + 1;
    } else {
      var j := (k - 2 * m) / 2;
      assert k == 2 * m + 2 * j || k == 2 * m + 2 * j + 1;
    }
  }

  lemma EdgeBeamsShape(m: nat, n: nat, r: seq<Beam>)
    requires (m == 0) == (n == 0)
    requires |r| == 2 * m + 2 * n
    requires forall k :: 0 <= k < m ==> r[2 * k] == Beam(Right, k, 0) && r[2 * k + 1] == Beam(Left, k, n - 1)
    requires forall k :: 0 <= k < n ==> r[2 * m + 2 * k] == Beam(Down, 0, k) && r[2 * m + 2 * k + 1] == Beam(Up, m - 1, k)
    ensures forall k :: 0 <= k < |r| ==> EntersGrid(m, n, r[k])
    ensures forall b :: EntersGrid(m, n, b) ==> b in r
    ensures forall k, l :: 0 <= k < l < |r| ==> r[k] != r[l]
  {
    EdgeBeamsEnter(m, n, r);
    EdgeBeamsCover(m, n, r);
    EdgeBeamsDistinct(m, n, r);
  }

  lemma EdgeBeamsEnter(m: nat, n: nat, r: seq<Beam>)
    requires (m == 0) == (n == 0)
    requires |r| == 2 * m + 2 * n
    requires forall k :: 0 <= k < m ==> r[2 * k] == Beam(Right, k, 0) && r[2 * k + 1] == Beam(Left, k, n - 1)
    requires forall k :: 0 <= k < n ==> r[2 * m + 2 * k] == Beam(Down, 0, k) && r[2 * m + 2 * k + 1] == Beam(Up, m - 1, k)
    ensures forall k :: 0 <= k < |r| ==> EntersGrid(m, n, r[k])
  {
    forall k | 0 <= k < |r| ensures EntersGrid(m, n, r[k]) {
      EdgeAtIndex(m, n, r, k);
    }
  }

  lemma EdgeBeamsCover(m: nat, n: nat, r: seq<Beam>)
    requires (m == 0) == (n == 0)
    requires |r| == 2 * m + 2 * n
    requires forall k :: 0 <= k < m ==> r[2 * k] == Beam(Right, k, 0) && r[2 * k + 1] == Beam(Left, k, n - 1)
    requires forall k :: 0 <= k < n ==> r[2 * m + 2 * k] == Beam(Down, 0, k) && r[2 * m + 2 * k + 1] == Beam(Up, m - 1, k)
    ensures forall b :: EntersGrid(m, n, b) ==> b in r
  {
    forall b | EntersGrid(m, n, b) ensures b in r {
      match b.direction
      case Right => assert r[2 * b.x] == b;
      case Left => assert r[2 * b.x + 1] == b;
      case Down => assert r[2 * m + 2 * b.y] == b;
      case Up => assert r[2 * m + 2 * b.y + 1] == b;
    }
  }

  lemma EdgeBeamsDistinct(m: nat, n: nat, r: seq<Beam>)
    requires (m == 0) == (n == 0)
    requires |r| == 2 * m + 2 * n
    requires forall k :: 0 <= k < m ==> r[2 * k] == Beam(Right, k, 0) && r[2 * k + 1] == Beam(Left, k, n - 1)
    requires forall k :: 0 <= k < n ==> r[2 * m + 2 * k] == Beam(Down, 0, k) && r[2 * m + 2 * k + 1] == Beam(Up, m - 1, k)
    ensures forall k, l :: 0 <= k < l < |r| ==> r[k] != r[l]
  {
    forall k, l | 0 <= k < l < |r| ensures r[k] != r[l] {
      EdgeAtIndex(m, n, r, k);
      EdgeAtIndex(m, n, r, l);
    }
  }

  /** The layout of a grid: for every row and column, exactly its obstacles in order. */
  ghost function Grid(lines: seq<string>): Layout
    requires |lines| > 0
  {
    Layout(map x: nat | x < |lines| :: RowObs(lines[x], x, |lines[x]|),
           map y: nat | y < |lines[0]| :: ColObs(lines, y, |lines|))
  }

  /** The parse is determined by the lines. */
  lemma ParsedIsGrid(lines: seq<string>, layout: Layout)
    requires |lines| > 0 && Parsed(lines, layout)
    ensures layout == Grid(lines)
  {
    assert layout.rowMap.Keys == Grid(lines).rowMap.Keys;
    assert layout.colMap.Keys == Grid(lines).colMap.Keys;
  }

  /** The cells energised in the grid of `lines` by a beam starting as `start`. */
  ghost function EnergisedCells(lines: seq<string>, start: Beam): set<(nat, nat)>
    requires |lines| > 0 && FitsWidth(lines, |lines[0]|) && InGrid(|lines|, |lines[0]|, start)
  {
    ParsedWellFormed(lines, Grid(lines));
    Cells(Energised(|lines|, |lines[0]|, Grid(lines), start))
  }

  /**
   * Part 1: the number of cells energised by a beam entering the top-left
   * cell moving right. None where the source panics: a failed parse, or an
   * empty first row (`n - 1` underflows).
   */
  method P1(lines: seq<string>) returns (r: Option<nat>)
    ensures r.Some? <==> |lines| > 0 && FitsWidth(lines, |lines[0]|) && |lines[0]| > 0
    ensures r.Some? ==> r.value == |EnergisedCells(lines, Beam(Right, 0, 0))|
    ensures r.Some? ==> 1 <= r.value
  {
    var parsed := ParseLines(lines);
    if parsed.None? {
      return None;
    }
    var (m, n, layout) := parsed.value;
    ParsedWellFormed(lines, layout);
    ParsedIsGrid(lines, layout);
    if n == 0 {
      return None;
    }
    var energised := SimulateBeam(m, n, layout, Beam(Right, 0, 0));
    assert (0, 0) in energised;
    return Some(|energised|);
  }

  /**
   * Part 2: the largest number of energised cells over all beams entering
   * from an edge. None where the source panics: a failed parse, or an empty
   * first row.
   */
  method P2(lines: seq<string>) returns (r: Option<nat>)
    ensures r.Some? <==> |lines| > 0 && FitsWidth(lines, |lines[0]|) && |lines[0]| > 0
    ensures r.Some? ==> exists b :: EntersGrid(|lines|, |lines[0]|, b) && r.value == |EnergisedCells(lines, b)|
    ensures r.Some? ==> forall b :: EntersGrid(|lines|, |lines[0]|, b) ==> |EnergisedCells(lines, b)| <= r.value
    ensures r.Some? ==> 1 <= r.value
  {
    var parsed := ParseLines(lines);
    if parsed.None? {
      return None;
    }
    var (m, n, layout) := parsed.value;
    ParsedWellFormed(lines, layout);
    ParsedIsGrid(lines, layout);
    if n == 0 {
      return None;
    }
    var beams := GetBeamsFromAllDirs(m, n);
    var best := 0;
    ghost var arg: nat := 0;
    for k := 0 to |beams|
      invariant if k == 0 then best == 0 else 1 <= best
      invariant forall j :: 0 <= j < k ==> |EnergisedCells(lines, beams[j])| <= best
      invariant arg <= k && (k > 0 ==> arg < k && best == |EnergisedCells(lines, beams[arg])|)
    {
      var energised := SimulateBeam(m, n, layout, beams[k]);
      assert energised == EnergisedCells(lines, beams[k]);
      assert (beams[k].x, beams[k].y) in energised;
      if |energised| > best {
        best := |energised|;
        arg := k;
      }
    }
    assert EntersGrid(m, n, beams[arg]);
    return Some(best);
  }
}
