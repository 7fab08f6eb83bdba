/**
 * Day 10: the pipe maze. Each pipe character joins its cell to two
 * neighbours; the walk from the start 'S' around the loop counts the loop
 * cells (part 1: the farthest point is half-way round) and accumulates the
 * shoelace sum, from which Pick's theorem gives the enclosed cells (part 2).
 *
 * Cells are (row, column). The start is treated as a '|' pipe.
 */
module D10 {
  import opened Wrappers
  import opened Arith

  type Cell = (int, int)

  type AdjList = map<Cell, seq<Cell>>

  datatype Grid = Grid(start: Cell, adj: AdjList)

  // ---------------------------------------------------------------------
  // Building the neighbour lists
  // ---------------------------------------------------------------------

  /** `check_in_range`: the same bound m for the row and the column. */
  predicate CheckInRange(i: int, j: int, m: int)
  {
    i >= 0 && i < m && j >= 0 && j < m
  }

  /** The list recorded for x so far; a missing entry starts empty. */
  function Entry(adj: AdjList, x: Cell): seq<Cell>
  {
    if x in adj then adj[x] else []
  }

  /**
   * `insert_into_adj`: when both neighbours lie in the m-by-m square, they
   * are appended to x's list in order; otherwise nothing changes.
   */
  function InsertIntoAdj(adj: AdjList, a: Cell, b: Cell, x: Cell, m: int): (r: AdjList)
    ensures 0 <= a.0 < m && 0 <= a.1 < m && 0 <= b.0 < m && 0 <= b.1 < m ==>
      r.Keys == adj.Keys + {x} && r[x] == Entry(adj, x) + [a, b]
    ensures !(0 <= a.0 < m && 0 <= a.1 < m && 0 <= b.0 < m && 0 <= b.1 < m) ==> r == adj
    ensures forall y :: y in adj && y != x ==> y in r && r[y] == adj[y]
  {
    if CheckInRange(a.0, a.1, m) && CheckInRange(b.0, b.1, m) then
      var withA := adj[x := Entry(adj, x) + [a]];
      withA[x := Entry(withA, x) + [b]]
    else adj
  }

  predicate Adjacent(p: Cell, q: Cell)
  {
    Abs(p.0 - q.0) + Abs(p.1 - q.1) == 1
  }

  /** The two cells a pipe at (i, j) joins, in the order they are recorded; 'S' counts as '|'. */
  function PipeEnds(ch: char, i: int, j: int): (r: Option<(Cell, Cell)>)
    ensures r.Some? <==> ch in "|-LJ7FS"
    ensures r.Some? ==> Adjacent(r.value.0, (i, j)) && Adjacent(r.value.1, (i, j)) && r.value.0 != r.value.1
  {
    match ch
    case '|' => Some(((i + 1, j), (i - 1, j)))
    case '-' => Some(((i, j + 1), (i, j - 1)))
    case 'L' => Some(((i - 1, j), (i, j + 1)))
    case 'J' => Some(((i - 1, j), (i, j - 1)))
    case '7' => Some(((i + 1, j), (i, j - 1)))
    case 'F' => Some(((i + 1, j), (i, j + 1)))
    case 'S' => Some(((i + 1, j), (i - 1, j)))
    case _ => None
  }

  /** One character of the grid: '.' adds nothing, 'S' also moves the start, anything unknown is a panic. */
  function Place(g: Grid, ch: char, i: int, j: int, m: int): Option<Grid>
  {
    if ch == '.' then Some(g)
    else match PipeEnds(ch, i, j)
      case None => None
      case Some((a, b)) => Some(Grid(if ch == 'S' then (i, j) else g.start, InsertIntoAdj(g.adj, a, b, (i, j), m)))
  }

  /** The first k characters of row i, whose length is the bound for both coordinates. */
  function ScanChars(line: string, i: int, g: Grid, k: nat): Option<Grid>
    requires k <= |line|
  {
    if k == 0 then Some(g)
    else match ScanChars(line, i, g, k - 1)
      case None => None
      case Some(h) => Place(h, line[k - 1], i, k - 1, |line|)
  }

  /** The first n rows, from no neighbour lists and the start at (0, 0). */
  function ScanRows(lines: seq<string>, n: nat): Option<Grid>
    requires n <= |lines|
  {
    if n == 0 then Some(Grid((0, 0), map[]))
    else match ScanRows(lines, n - 1)
      case None => None
      case Some(g) => ScanChars(lines[n - 1], n - 1, g, |lines[n - 1]|)
  }

  /** The character loop of one row. */
  method ScanLine(line: string, i: int, g0: Grid) returns (r: Option<Grid>)
    ensures r == ScanChars(line, i, g0, |line|)
  {
    var g := g0;
    var m := |line|;
    for j := 0 to |line|
      invariant ScanChars(line, i, g0, j) == Some(g)
    {
      var ch := line[j];
      var placed := Place(g, ch, i, j, m);
      if placed.None? {
        ScanCharsFails(line, i, g0, j + 1, |line|);
        return None;
      }
      g := placed.value;
    }
    return Some(g);
  }

  lemma {:induction false} ScanCharsFails(line: string, i: int, g: Grid, k: nat, n: nat)
    requires k <= n <= |line| && ScanChars(line, i, g, k).None?
    ensures ScanChars(line, i, g, n).None?
    decreases n
  {
    if n > k {
      ScanCharsFails(line, i, g, k, n - 1);
    }
  }

  /** `parse_lines`: the start cell and the neighbour lists; None where the source panics. */
  method ParseLines(lines: seq<string>) returns (r: Option<Grid>)
    ensures r == ScanRows(lines, |lines|)
  {
    var g := Grid((0, 0), map[]);
    for i := 0 to |lines|
      invariant ScanRows(lines, i) == Some(g)
    {
      var row := ScanLine(lines[i], i, g);
      if row.None? {
        ScanRowsFails(lines, i + 1, |lines|);
        return None;
      }
      g := row.value;
    }
    return Some(g);
  }

  lemma {:induction false} ScanRowsFails(lines: seq<string>, k: nat, n: nat)
    requires k <= n <= |lines| && ScanRows(lines, k).None?
    ensures ScanRows(lines, n).None?
    decreases n
  {
    if n > k {
      ScanRowsFails(lines, k, n - 1);
    }
  }

  // ---------------------------------------------------------------------
  // What the parse records
  // ---------------------------------------------------------------------

  /** The list the parse records for cell (i, j): a pipe's two ends, when both lie in range. */
  function CellEntry(lines: seq<string>, i: int, j: int): Option<seq<Cell>>
  {
    if 0 <= i < |lines| && 0 <= j < |lines[i]| then
      match PipeEnds(lines[i][j], i, j)
      case Some((a, b)) =>
        if CheckInRange(a.0, a.1, |lines[i]|) && CheckInRange(b.0, b.1, |lines[i]|) then Some([a, b]) else None
      case None => None
    else None
  }

  /** Cell (i, j) comes before character k of row n in reading order. */
  predicate Before(n: int, k: int, i: int, j: int)
  {
    0 <= i && 0 <= j && (i < n || (i == n && j < k))
  }

  predicate InGrid(lines: seq<string>, c: Cell)
  {
    0 <= c.0 < |lines| && 0 <= c.1 < |lines[c.0]|
  }

  predicate RowMajorLe(p: Cell, q: Cell)
  {
    p.0 < q.0 || (p.0 == q.0 && p.1 <= q.1)
  }

  /** Every character read so far is a pipe, 'S' or '.'. */
  ghost predicate ValidBefore(lines: seq<string>, n: int, k: int)
  {
    forall i, j :: Before(n, k, i, j) && InGrid(lines, (i, j)) ==> lines[i][j] in "|-LJ7FS."
  }

  /** The lists are exactly the in-range pipe entries read so far. */
  ghost predicate AdjMeaning(lines: seq<string>, adj: AdjList, n: int, k: int)
  {
    (forall i: int, j: int :: (i, j) in adj <==> Before(n, k, i, j) && CellEntry(lines, i, j).Some?)
    && (forall i: int, j: int :: (i, j) in adj ==> Some(adj[(i, j)]) == CellEntry(lines, i, j))
  }

  /** The start is the last 'S' read so far, or (0, 0) when there is none. */
  ghost predicate StartMeaning(lines: seq<string>, start: Cell, n: int, k: int)
  {
    (start == (0, 0) || (Before(n, k, start.0, start.1) && InGrid(lines, start) && lines[start.0][start.1] == 'S'))
    && (forall i, j :: Before(n, k, i, j) && InGrid(lines, (i, j)) && lines[i][j] == 'S' ==> RowMajorLe((i, j), start))
  }

  lemma ValidStep(lines: seq<string>, i: int, j: int)
    requires InGrid(lines, (i, j))
    ensures ValidBefore(lines, i, j + 1) <==> ValidBefore(lines, i, j) && lines[i][j] in "|-LJ7FS."
  {
    if ValidBefore(lines, i, j + 1) {
      assert Before(i, j + 1, i, j);
    }
  }

  /** Reading a valid character at (i, j) records exactly its entry. */
  lemma AdjStep(lines: seq<string>, i: int, j: int, h: Grid)
    requires InGrid(lines, (i, j)) && lines[i][j] in "|-LJ7FS." && AdjMeaning(lines, h.adj, i, j)
    ensures Place(h, lines[i][j], i, j, |lines[i]|).Some?
    ensures AdjMeaning(lines, Place(h, lines[i][j], i, j, |lines[i]|).value.adj, i, j + 1)
  {
    assert (i, j) !in h.adj;
    var adj' := Place(h, lines[i][j], i, j, |lines[i]|).value.adj;
    forall i': int, j': int
      ensures ((i', j') in adj' <==> Before(i, j + 1, i', j') && CellEntry(lines, i', j').Some?)
      ensures (i', j') in adj' ==> Some(adj'[(i', j')]) == CellEntry(lines, i', j')
    {
      if (i', j') != (i, j) {
        assert Before(i, j + 1, i', j') <==> Before(i, j, i', j');
        assert (i', j') in adj' <==> (i', j') in h.adj;
      } else if PipeEnds(lines[i][j], i, j).Some? {
        var ends := PipeEnds(lines[i][j], i, j).value;
        assert Entry(h.adj, (i, j)) + [ends.0, ends.1] == [ends.0, ends.1];
      }
    }
  }

  /** Reading an 'S' at (i, j) makes it the start; other characters keep the start. */
  lemma StartStep(lines: seq<string>, i: int, j: int, h: Grid)
    requires InGrid(lines, (i, j)) && lines[i][j] in "|-LJ7FS." && StartMeaning(lines, h.start, i, j)
    ensures Place(h, lines[i][j], i, j, |lines[i]|).Some?
    ensures StartMeaning(lines, Place(h, lines[i][j], i, j, |lines[i]|).value.start, i, j + 1)
  {
  }

  lemma {:induction false} ScanCharsMeaning(lines: seq<string>, i: nat, g: Grid, k: nat)
    requires i < |lines| && k <= |lines[i]|
    requires ValidBefore(lines, i, 0) && AdjMeaning(lines, g.adj, i, 0) && StartMeaning(lines, g.start, i, 0)
    ensures ScanChars(lines[i], i, g, k).Some? <==> ValidBefore(lines, i, k)
    ensures ScanChars(lines[i], i, g, k).Some? ==>
      AdjMeaning(lines, ScanChars(lines[i], i, g, k).value.adj, i, k) && StartMeaning(lines, ScanChars(lines[i], i, g, k).value.start, i, k)
  {
    if k > 0 {
      ScanCharsMeaning(lines, i, g, k - 1);
      var j := k - 1;
      ValidStep(lines, i, j);
      if ScanChars(lines[i], i, g, j).Some? {
        var h := ScanChars(lines[i], i, g, j).value;
        if lines[i][j] in "|-LJ7FS." {
          AdjStep(lines, i, j, h);
          StartStep(lines, i, j, h);
        }
      }
    }
  }

  /** The parse fails exactly on an unknown character; otherwise it records every in-range pipe and the last 'S'. */
  lemma {:induction false} ScanRowsMeaning(lines: seq<string>, n: nat)
    requires n <= |lines|
    ensures ScanRows(lines, n).Some? <==> ValidBefore(lines, n, 0)
    ensures ScanRows(lines, n).Some? ==>
      AdjMeaning(lines, ScanRows(lines, n).value.adj, n, 0) && StartMeaning(lines, ScanRows(lines, n).value.start, n, 0)
  {
    if n > 0 {
      var i := n - 1;
      ScanRowsMeaning(lines, i);
      if ScanRows(lines, i).Some? {
        var g := ScanRows(lines, i).value;
        ScanCharsMeaning(lines, i, g, |lines[i]|);
        assert ValidBefore(lines, i, |lines[i]|) <==> ValidBefore(lines, n, 0);
      } else {
        assert !ValidBefore(lines, n, 0);
      }
    }
  }

  // ---------------------------------------------------------------------
  // The walk around the loop
  // ---------------------------------------------------------------------

  /** Every cell that appears in some list: the only cells the walk can enter. */
  function Listed(adj: AdjList): set<Cell>
  {
    set x, c | x in adj && c in adj[x] :: c
  }

  lemma InListed(adj: AdjList, x: Cell, k: nat)
    requires x in adj && k < |adj[x]|
    ensures adj[x][k] in Listed(adj)
  {
    assert adj[x][k] in adj[x];
  }

  /**
   * The position of the first neighbour the walk may enter: not yet
   * visited, and, when `back` is given, not that cell.
   */
  function FirstOpen(ns: seq<Cell>, vis: set<Cell>, back: Option<Cell>): (r: Option<nat>)
    ensures r.Some? ==> r.value < |ns| && ns[r.value] !in vis && Some(ns[r.value]) != back
    ensures r.Some? ==> forall k :: 0 <= k < r.value ==> ns[k] in vis || Some(ns[k]) == back
    ensures r.None? ==> forall k :: 0 <= k < |ns| ==> ns[k] in vis || Some(ns[k]) == back
  {
    if ns == [] then None
    else if ns[0] !in vis && Some(ns[0]) != back then Some(0)
    else match FirstOpen(ns[1..], vis, back)
      case None => None
      case Some(k) => Some(k + 1)
  }

  /**
   * The cells the walk enters from `cur`, the last one being the start;
   * None where the source panics on a cell without a list or loops forever
   * on a cell whose neighbours are all visited. With `skipBack` the walk also
   * refuses to step back into the cell it just left (`prev`).
   */
  function WalkPath(adj: AdjList, s: Cell, cur: Cell, vis: set<Cell>, skipBack: bool, prev: Option<Cell>): Option<seq<Cell>>
    decreases Listed(adj) - vis
  {
    if cur !in adj then None
    else match FirstOpen(adj[cur], vis, if skipBack then prev else None)
      case None => if cur == s then Some([]) else None
      case Some(k) =>
        var next := adj[cur][k];
        InListed(adj, cur, k);
        if next == s then Some([next])
        else match WalkPath(adj, s, next, vis + {next}, skipBack, Some(cur))
          case None => None
          case Some(p) => Some([next] + p)
  }

  /** The shoelace terms `cur.0 * j - cur.1 * i` along a path from `cur`. */
  function PathArea(cur: Cell, p: seq<Cell>): int
    decreases |p|
  {
    if p == [] then 0 else cur.0 * p[0].1 - cur.1 * p[0].0 + PathArea(p[0], p[1..])
  }

  lemma {:induction false} PathAreaSnoc(cur: Cell, p: seq<Cell>, c: Cell)
    ensures PathArea(cur, p + [c]) == PathArea(cur, p) + (Last(cur, p).0 * c.1 - Last(cur, p).1 * c.0)
    decreases |p|
  {
    if p != [] {
      assert (p + [c])[1..] == p[1..] + [c];
      PathAreaSnoc(p[0], p[1..], c);
    }
  }

  function Last(cur: Cell, p: seq<Cell>): Cell
  {
    if p == [] then cur else p[|p| - 1]
  }

  /**
   * The path the walk takes: it enters fresh cells only, each from the list
   * of the cell before, each once, and it stops the first time it enters the start.
   */
  lemma {:induction false} WalkPathFacts(adj: AdjList, s: Cell, cur: Cell, vis: set<Cell>, skipBack: bool, prev: Option<Cell>)
    requires s !in vis
    requires WalkPath(adj, s, cur, vis, skipBack, prev).Some?
    ensures var p := WalkPath(adj, s, cur, vis, skipBack, prev).value;
      (p == [] <==> cur == s && forall k :: 0 <= k < |adj[cur]| ==> adj[cur][k] in vis || (skipBack && Some(adj[cur][k]) == prev))
      && (p != [] ==> p[|p| - 1] == s && p[0] in adj[cur])
      && (forall k :: 0 <= k < |p| - 1 ==> p[k] != s && p[k] in adj && p[k + 1] in adj[p[k]])
      && (forall k :: 0 <= k < |p| ==> p[k] !in vis)
      && (forall k, l :: 0 <= k < l < |p| ==> p[k] != p[l])
    decreases Listed(adj) - vis
  {
    var back := if skipBack then prev else None;
    var k :| FirstOpen(adj[cur], vis, back) == Some(k) || (FirstOpen(adj[cur], vis, back).None? && k == 0);
    if FirstOpen(adj[cur], vis, back).Some? {
      var next := adj[cur][k];
      InListed(adj, cur, k);
      if next != s {
        WalkPathFacts(adj, s, next, vis + {next}, skipBack, Some(cur));
        var q := WalkPath(adj, s, next, vis + {next}, skipBack, Some(cur)).value;
        var p := [next] + q;
        assert q != [] by {
          assert next != s;
        }
        forall k | 0 <= k < |p| - 1
          ensures p[k] != s && p[k] in adj && p[k + 1] in adj[p[k]]
        {
          if k > 0 {
            assert p[k] == q[k - 1] && p[k + 1] == q[k];
          }
        }
        forall k, l | 0 <= k < l < |p|
          ensures p[k] != p[l]
        {
          if k > 0 {
            assert p[k] == q[k - 1] && p[l] == q[l - 1];
          } else {
            assert p[l] == q[l - 1] && q[l - 1] !in vis + {next};
          }
        }
      }
    }
  }

  /** The result of `process_polygon`: the halved area, the interior count and the loop length. */
  datatype Polygon = Polygon(area: int, interior: int, boundary: int)

  /** Pick's theorem on a walk's path, with the area kept signed as in the source or taken absolute. */
  function PolygonOf(s: Cell, p: seq<Cell>, absolute: bool): (r: Polygon)
    ensures r.boundary == |p|
    ensures absolute ==> r.area >= 0 && (2 * r.area == Abs(PathArea(s, p)) || 2 * r.area + 1 == Abs(PathArea(s, p)))
  {
    var area := Half(PathArea(s, p));
    var a := if absolute then Abs(area) else area;
    Polygon(a, a - Half(|p|) + 1, |p|)
  }

  /** The inner `for ... break`: the first neighbour the walk may enter. */
  method FindOpen(ns: seq<Cell>, vis: set<Cell>, back: Option<Cell>) returns (r: Option<nat>)
    ensures r == FirstOpen(ns, vis, back)
  {
    for k := 0 to |ns|
      invariant forall i :: 0 <= i < k ==> ns[i] in vis || Some(ns[i]) == back
    {
      if ns[k] !in vis && Some(ns[k]) != back {
        return Some(k);
      }
    }
    return None;
  }

  function Then(path: seq<Cell>, rest: Option<seq<Cell>>): Option<seq<Cell>>
  {
    match rest
    case None => None
    case Some(q) => Some(path + q)
  }

  /** One round of the walk, seen from the whole walk: the path so far grows by the cell entered. */
  lemma WalkStep(adj: AdjList, s: Cell, cur: Cell, vis: set<Cell>, skipBack: bool, prev: Option<Cell>, path: seq<Cell>)
    requires cur in adj
    ensures FirstOpen(adj[cur], vis, if skipBack then prev else None).None? ==>
      Then(path, WalkPath(adj, s, cur, vis, skipBack, prev)) == if cur == s then Some(path) else None
    ensures FirstOpen(adj[cur], vis, if skipBack then prev else None).Some? ==>
      var next := adj[cur][FirstOpen(adj[cur], vis, if skipBack then prev else None).value];
      Then(path, WalkPath(adj, s, cur, vis, skipBack, prev)) ==
        if next == s then Some(path + [next]) else Then(path + [next], WalkPath(adj, s, next, vis + {next}, skipBack, Some(cur)))
  {
    assert path + [] == path;
    var k := FirstOpen(adj[cur], vis, if skipBack then prev else None);
    if k.Some? {
      var next := adj[cur][k.value];
      var rest := WalkPath(adj, s, next, vis + {next}, skipBack, Some(cur));
      if next != s && rest.Some? {
        assert path + ([next] + rest.value) == path + [next] + rest.value;
      }
    }
  }

  /**
   * The result `process_polygon` computes from the walk, if it ends; `skipBack`
   * and `absolute` switch on the two corrections (see the findings).
   */
  function PolygonFor(adj: AdjList, s: Cell, skipBack: bool, absolute: bool): Option<Polygon>
  {
    match WalkPath(adj, s, s, {}, skipBack, None)
    case None => None
    case Some(p) => Some(PolygonOf(s, p, absolute))
  }

  /**
   * `process_polygon`: from the start, enter the first open neighbour,
   * count it, mark it visited and add its shoelace term, until the walk is
   * back at the start; then halve the area and apply Pick's theorem. With
   * `skipBack` the walk never steps straight back, with `absolute` the area
   * is taken absolute (see the findings); with neither this is the source
   * as written.
   */
  method ProcessPolygon(adj: AdjList, s: Cell, skipBack: bool, absolute: bool) returns (r: Option<Polygon>)
    ensures r == PolygonFor(adj, s, skipBack, absolute)
  {
    var boundary := 0;
    var area := 0;
    var cur := s;
    var vis: set<Cell> := {};
    var prev: Option<Cell> := None;
    ghost var path: seq<Cell> := [];
    assert forall q: seq<Cell> :: [] + q == q;
    while true
      invariant boundary == |path| && area == PathArea(s, path) && cur == Last(s, path)
      invariant WalkPath(adj, s, s, {}, skipBack, None) == Then(path, WalkPath(adj, s, cur, vis, skipBack, prev))
      decreases Listed(adj) - vis
    {
      if cur !in adj {
        return None;
      }
      var k := FindOpen(adj[cur], vis, if skipBack then prev else None);
      WalkStep(adj, s, cur, vis, skipBack, prev, path);
      if k.None? {
        if cur == s {
          assert WalkPath(adj, s, s, {}, skipBack, None) == Some(path);
          break;
        }
        return None;
      }
      var next := adj[cur][k.value];
      InListed(adj, cur, k.value);
      PathAreaSnoc(s, path, next);
      boundary := boundary + 1;
      vis := vis + {next};
      area := area + (cur.0 * next.1 - cur.1 * next.0);
      path := path + [next];
      prev := Some(cur);
      cur := next;
      if cur == s {
        assert WalkPath(adj, s, s, {}, skipBack, None) == Some(path);
        break;
      }
    }
    ghost var poly := PolygonOf(s, path, absolute);
    assert PolygonFor(adj, s, skipBack, absolute) == Some(poly);
    area := Half(area);
    if absolute {
      area := Abs(area);
    }
    assert area == poly.area;
    var interiorPoints := area - Half(boundary) + 1;
    assert interiorPoints == poly.interior;
    return Some(Polygon(area, interiorPoints, boundary));
  }

  /** Parse, then walk; None where the source panics or never stops. */
  function Solved(lines: seq<string>, skipBack: bool, absolute: bool): Option<Polygon>
  {
    match ScanRows(lines, |lines|)
    case None => None
    case Some(g) => PolygonFor(g.adj, g.start, skipBack, absolute)
  }

  method Solve(lines: seq<string>, skipBack: bool, absolute: bool) returns (r: Option<Polygon>)
    ensures r == Solved(lines, skipBack, absolute)
  {
    var g := ParseLines(lines);
    if g.None? {
      return None;
    }
    r := ProcessPolygon(g.value.adj, g.value.start, skipBack, absolute);
  }

  /** Part 1: half the loop length, the distance to the farthest loop cell. */
  method P1(lines: seq<string>) returns (r: Option<int>)
    ensures r.None? <==> Solved(lines, true, true).None?
    ensures r.Some? ==> r.value == Solved(lines, true, true).value.boundary / 2 && r.value >= 0
  {
    var poly := Solve(lines, true, true);
    if poly.None? {
      return None;
    }
    return Some(poly.value.boundary / 2);
  }

  /** Part 2: the cells enclosed by the loop, by Pick's theorem. */
  method P2(lines: seq<string>) returns (r: Option<int>)
    ensures r.None? <==> Solved(lines, true, true).None?
    ensures r.Some? ==> r.value == Solved(lines, true, true).value.interior
  {
    var poly := Solve(lines, true, true);
    if poly.None? {
      return None;
    }
    return Some(poly.value.interior);
  }

  // ---------------------------------------------------------------------
  // The start above a bottom corner
  // ---------------------------------------------------------------------

  /** A 3-by-3 loop of eight cells whose start sits on the right side, right above a 'J'. */
  function CornerGrid(): seq<string>
  {
    ["F-7", "|.S", "L-J"]
  }

  /** The lists of the eight loop cells of the example. */
  predicate CornerLists(adj: AdjList)
  {
    (0, 0) in adj && adj[(0, 0)] == [(1, 0), (0, 1)] && (0, 1) in adj && adj[(0, 1)] == [(0, 2), (0, 0)] &&
    (0, 2) in adj && adj[(0, 2)] == [(1, 2), (0, 1)] && (1, 0) in adj && adj[(1, 0)] == [(2, 0), (0, 0)] &&
    (1, 2) in adj && adj[(1, 2)] == [(2, 2), (0, 2)] && (2, 0) in adj && adj[(2, 0)] == [(1, 0), (2, 1)] &&
    (2, 1) in adj && adj[(2, 1)] == [(2, 2), (2, 0)] && (2, 2) in adj && adj[(2, 2)] == [(1, 2), (2, 1)]
  }

  lemma CornerEntriesTop()
    ensures CellEntry(CornerGrid(), 0, 0) == Some([(1, 0), (0, 1)])
    ensures CellEntry(CornerGrid(), 0, 1) == Some([(0, 2), (0, 0)])
    ensures CellEntry(CornerGrid(), 0, 2) == Some([(1, 2), (0, 1)])
  {
    assert CornerGrid()[0] == "F-7";
  }

  lemma CornerEntriesMiddle()
    ensures CellEntry(CornerGrid(), 1, 0) == Some([(2, 0), (0, 0)])
    ensures CellEntry(CornerGrid(), 1, 2) == Some([(2, 2), (0, 2)])
  {
    assert CornerGrid()[1] == "|.S";
  }

  lemma CornerEntriesBottom()
    ensures CellEntry(CornerGrid(), 2, 0) == Some([(1, 0), (2, 1)])
    ensures CellEntry(CornerGrid(), 2, 1) == Some([(2, 2), (2, 0)])
    ensures CellEntry(CornerGrid(), 2, 2) == Some([(1, 2), (2, 1)])
  {
    assert CornerGrid()[2] == "L-J";
  }

  lemma CornerGridChars()
    ensures ValidBefore(CornerGrid(), 3, 0)
    ensures forall i, j :: Before(3, 0, i, j) && InGrid(CornerGrid(), (i, j)) && CornerGrid()[i][j] == 'S' ==> (i, j) == (1, 2)
    ensures InGrid(CornerGrid(), (1, 2)) && CornerGrid()[1][2] == 'S'
  {
    var lines := CornerGrid();
    assert lines[0] == "F-7" && lines[1] == "|.S" && lines[2] == "L-J";
    forall i, j | Before(3, 0, i, j) && InGrid(lines, (i, j))
      ensures lines[i][j] in "|-LJ7FS."
      ensures lines[i][j] == 'S' ==> (i, j) == (1, 2)
    {
      assert i == 0 || i == 1 || i == 2;
      assert j == 0 || j == 1 || j == 2;
    }
  }

  /** The parse of the example: the start is (1, 2), and each loop cell lists its two neighbours. */
  lemma CornerGridParse()
    ensures ScanRows(CornerGrid(), 3).Some?
    ensures ScanRows(CornerGrid(), 3).value.start == (1, 2)
    ensures CornerLists(ScanRows(CornerGrid(), 3).value.adj)
  {
    var lines := CornerGrid();
    CornerGridChars();
    ScanRowsMeaning(lines, 3);
    var g := ScanRows(lines, 3).value;
    assert RowMajorLe((1, 2), g.start) by {
      assert Before(3, 0, 1, 2);
    }
    CornerEntriesTop();
    CornerEntriesMiddle();
    CornerEntriesBottom();
    assert Before(3, 0, 0, 0) && Before(3, 0, 0, 1) && Before(3, 0, 0, 2) && Before(3, 0, 1, 0);
    assert Before(3, 0, 1, 2) && Before(3, 0, 2, 0) && Before(3, 0, 2, 1) && Before(3, 0, 2, 2);
  }

  /**
   * As written, the walk goes down from the start into the 'J', whose first
   * neighbour is the start itself, not yet visited: it steps straight back
   * and stops after two cells, so part 1 reports 1 instead of 4.
   */
  lemma SourceWalkStepsBack(adj: AdjList)
    requires CornerLists(adj)
    ensures WalkPath(adj, (1, 2), (1, 2), {}, false, None) == Some([(2, 2), (1, 2)])
    ensures PolygonFor(adj, (1, 2), false, false) == Some(Polygon(0, 0, 2))
  {
    var g := Grid((1, 2), adj);
    var s := (1, 2);
    assert FirstOpen(g.adj[(2, 2)], {(2, 2)}, None) == Some(0);
    assert WalkPath(g.adj, s, (2, 2), {(2, 2)}, false, Some(s)) == Some([(1, 2)]);
    assert FirstOpen(g.adj[s], {}, None) == Some(0);
    assert {} + {(2, 2)} == {(2, 2)};
    assert PathArea(s, [(2, 2), (1, 2)]) == 0;
    assert |[(2, 2), (1, 2)]| == 2 && Half(2) == 1 && Half(0) == 0;
    assert PolygonOf(s, [(2, 2), (1, 2)], false) == Polygon(0, 0, 2);
    assert PolygonFor(adj, s, false, false) == Some(PolygonOf(s, [(2, 2), (1, 2)], false));
    assert WalkPath(adj, s, s, {}, false, None) == Some([(2, 2)] + [(1, 2)]);
    assert [(2, 2)] + [(1, 2)] == [(2, 2), (1, 2)];
  }

  /**
   * The walk that never steps straight back goes all the way round: eight
   * loop cells, so the farthest is 4 away, and the one '.' inside is enclosed.
   * The loop runs clockwise, so the signed area is negative and only its
   * absolute value gives the right count.
   */
  lemma FixedWalkGoesRound(adj: AdjList)
    requires CornerLists(adj)
    ensures WalkPath(adj, (1, 2), (1, 2), {}, true, None) == Some([(2, 2), (2, 1), (2, 0), (1, 0), (0, 0), (0, 1), (0, 2), (1, 2)])
    ensures PathArea((1, 2), [(2, 2), (2, 1), (2, 0), (1, 0), (0, 0), (0, 1), (0, 2), (1, 2)]) == -8
    ensures PolygonFor(adj, (1, 2), true, true) == Some(Polygon(4, 1, 8))
  {
    var s := (1, 2);
    var v1 := {(2, 2)};
    var v2 := v1 + {(2, 1)};
    var v3 := v2 + {(2, 0)};
    var v4 := v3 + {(1, 0)};
    var v5 := v4 + {(0, 0)};
    var v6 := v5 + {(0, 1)};
    var v7 := v6 + {(0, 2)};
    var p := [(2, 2), (2, 1), (2, 0), (1, 0), (0, 0), (0, 1), (0, 2), (1, 2)];
    assert FirstOpen(adj[(0, 2)], v7, Some((0, 1))) == Some(0);
    assert WalkPath(adj, s, (0, 2), v7, true, Some((0, 1))) == Some(p[7..]);
    assert FirstOpen(adj[(0, 1)], v6, Some((0, 0))) == Some(0);
    assert p[6..] == [p[6]] + p[7..];
    assert WalkPath(adj, s, (0, 1), v6, true, Some((0, 0))) == Some(p[6..]);
    assert FirstOpen(adj[(0, 0)], v5, Some((1, 0))) == Some(1);
    assert p[5..] == [p[5]] + p[6..];
    assert WalkPath(adj, s, (0, 0), v5, true, Some((1, 0))) == Some(p[5..]);
    assert FirstOpen(adj[(1, 0)], v4, Some((2, 0))) == Some(1);
    assert p[4..] == [p[4]] + p[5..];
    assert WalkPath(adj, s, (1, 0), v4, true, Some((2, 0))) == Some(p[4..]);
    assert FirstOpen(adj[(2, 0)], v3, Some((2, 1))) == Some(0);
    assert p[3..] == [p[3]] + p[4..];
    assert WalkPath(adj, s, (2, 0), v3, true, Some((2, 1))) == Some(p[3..]);
    assert FirstOpen(adj[(2, 1)], v2, Some((2, 2))) == Some(1);
    assert p[2..] == [p[2]] + p[3..];
    assert WalkPath(adj, s, (2, 1), v2, true, Some((2, 2))) == Some(p[2..]);
    assert FirstOpen(adj[(2, 2)], v1, Some(s)) == Some(1);
    assert p[1..] == [p[1]] + p[2..];
    assert WalkPath(adj, s, (2, 2), v1, true, Some(s)) == Some(p[1..]);
    assert FirstOpen(adj[s], {}, None) == Some(0);
    assert {} + {(2, 2)} == v1;
    assert p == [p[0]] + p[1..];
    assert PathArea((0, 2), p[7..]) == -2;
    assert PathArea((0, 1), p[6..]) == -2;
    assert PathArea((0, 0), p[5..]) == -2;
    assert PathArea((1, 0), p[4..]) == -2;
    assert PathArea((2, 0), p[3..]) == -2;
    assert PathArea((2, 1), p[2..]) == -4;
    assert PathArea((2, 2), p[1..]) == -6;
    assert PathArea(s, p) == -8;
    assert Half(-8) == -4 && Abs(-4) == 4 && Half(8) == 4;
    assert PolygonOf(s, p, true) == Polygon(4, 1, 8);
    assert PolygonFor(adj, s, true, true) == Some(PolygonOf(s, p, true));
  }

  /** On the example grid the source finds a two-cell loop, the corrected walk the whole loop. */
  lemma CornerGridFinding()
    ensures Solved(CornerGrid(), false, false) == Some(Polygon(0, 0, 2))
    ensures Solved(CornerGrid(), true, true) == Some(Polygon(4, 1, 8))
  {
    CornerGridParse();
    var g := ScanRows(CornerGrid(), 3).value;
    SourceWalkStepsBack(g.adj);
    FixedWalkGoesRound(g.adj);
  }

  // ---------------------------------------------------------------------
  // A loop walked clockwise
  // ---------------------------------------------------------------------

  /** A 4-by-4 grid whose ten-cell loop the walk, as written, goes round clockwise from the start on the right side. */
  function TallGrid(): seq<string>
  {
    ["F-7.", "|.S.", "|.|.", "L-J."]
  }

  /** The lists of the ten loop cells of the example. */
  predicate TallLists(adj: AdjList)
  {
    (0, 0) in adj && adj[(0, 0)] == [(1, 0), (0, 1)] && (0, 1) in adj && adj[(0, 1)] == [(0, 2), (0, 0)] &&
    (0, 2) in adj && adj[(0, 2)] == [(1, 2), (0, 1)] && (1, 0) in adj && adj[(1, 0)] == [(2, 0), (0, 0)] &&
    (1, 2) in adj && adj[(1, 2)] == [(2, 2), (0, 2)] && (2, 0) in adj && adj[(2, 0)] == [(3, 0), (1, 0)] &&
    (2, 2) in adj && adj[(2, 2)] == [(3, 2), (1, 2)] && (3, 0) in adj && adj[(3, 0)] == [(2, 0), (3, 1)] &&
    (3, 1) in adj && adj[(3, 1)] == [(3, 2), (3, 0)] && (3, 2) in adj && adj[(3, 2)] == [(2, 2), (3, 1)]
  }

  lemma TallEntriesTop()
    ensures CellEntry(TallGrid(), 0, 0) == Some([(1, 0), (0, 1)])
    ensures CellEntry(TallGrid(), 0, 1) == Some([(0, 2), (0, 0)])
    ensures CellEntry(TallGrid(), 0, 2) == Some([(1, 2), (0, 1)])
    ensures CellEntry(TallGrid(), 1, 0) == Some([(2, 0), (0, 0)])
    ensures CellEntry(TallGrid(), 1, 2) == Some([(2, 2), (0, 2)])
  {
    assert TallGrid()[0] == "F-7." && TallGrid()[1] == "|.S.";
  }

  lemma TallEntriesBottom()
    ensures CellEntry(TallGrid(), 2, 0) == Some([(3, 0), (1, 0)])
    ensures CellEntry(TallGrid(), 2, 2) == Some([(3, 2), (1, 2)])
    ensures CellEntry(TallGrid(), 3, 0) == Some([(2, 0), (3, 1)])
    ensures CellEntry(TallGrid(), 3, 1) == Some([(3, 2), (3, 0)])
    ensures CellEntry(TallGrid(), 3, 2) == Some([(2, 2), (3, 1)])
  {
    assert TallGrid()[2] == "|.|." && TallGrid()[3] == "L-J.";
  }

  lemma TallGridChars()
    ensures ValidBefore(TallGrid(), 4, 0)
    ensures forall i, j :: Before(4, 0, i, j) && InGrid(TallGrid(), (i, j)) && TallGrid()[i][j] == 'S' ==> (i, j) == (1, 2)
    ensures InGrid(TallGrid(), (1, 2)) && TallGrid()[1][2] == 'S'
  {
    var lines := TallGrid();
    assert lines[0] == "F-7." && lines[1] == "|.S." && lines[2] == "|.|." && lines[3] == "L-J.";
    forall i, j | Before(4, 0, i, j) && InGrid(lines, (i, j))
      ensures lines[i][j] in "|-LJ7FS."
      ensures lines[i][j] == 'S' ==> (i, j) == (1, 2)
    {
      assert i == 0 || i == 1 || i == 2 || i == 3;
      assert j == 0 || j == 1 || j == 2 || j == 3;
    }
  }

  /** The parse of the example: the start is (1, 2), and each loop cell lists its two neighbours. */
  lemma TallGridParse()
    ensures ScanRows(TallGrid(), 4).Some?
    ensures ScanRows(TallGrid(), 4).value.start == (1, 2)
    ensures TallLists(ScanRows(TallGrid(), 4).value.adj)
  {
    var lines := TallGrid();
    TallGridChars();
    ScanRowsMeaning(lines, 4);
    var g := ScanRows(lines, 4).value;
    assert RowMajorLe((1, 2), g.start) by {
      assert Before(4, 0, 1, 2);
    }
    TallEntriesTop();
    TallEntriesBottom();
    assert Before(4, 0, 0, 0) && Before(4, 0, 0, 1) && Before(4, 0, 0, 2) && Before(4, 0, 1, 0) && Before(4, 0, 1, 2);
    assert Before(4, 0, 2, 0) && Before(4, 0, 2, 2) && Before(4, 0, 3, 0) && Before(4, 0, 3, 1) && Before(4, 0, 3, 2);
  }

  /** The last six steps of the clockwise walk below: from the bottom-left corner up, along the top and back to the start. */
  lemma TallWalkUpper(adj: AdjList, skipBack: bool)
    requires TallLists(adj)
    ensures WalkPath(adj, (1, 2), (3, 0), {(2, 2), (3, 2), (3, 1), (3, 0)}, skipBack, Some((3, 1))) ==
      Some([(2, 0), (1, 0), (0, 0), (0, 1), (0, 2), (1, 2)])
  {
    var s := (1, 2);
    var p := [(2, 0), (1, 0), (0, 0), (0, 1), (0, 2), (1, 2)];
    var v4 := {(2, 2), (3, 2), (3, 1), (3, 0)};
    var v5 := v4 + {(2, 0)};
    var v6 := v5 + {(1, 0)};
    var v7 := v6 + {(0, 0)};
    var v8 := v7 + {(0, 1)};
    var v9 := v8 + {(0, 2)};
    assert FirstOpen(adj[(0, 2)], v9, if skipBack then Some((0, 1)) else None) == Some(0);
    assert WalkPath(adj, s, (0, 2), v9, skipBack, Some((0, 1))) == Some(p[5..]);
    assert FirstOpen(adj[(0, 1)], v8, if skipBack then Some((0, 0)) else None) == Some(0);
    assert p[4..] == [p[4]] + p[5..];
    assert WalkPath(adj, s, (0, 1), v8, skipBack, Some((0, 0))) == Some(p[4..]);
    assert FirstOpen(adj[(0, 0)], v7, if skipBack then Some((1, 0)) else None) == Some(1);
    assert p[3..] == [p[3]] + p[4..];
    assert WalkPath(adj, s, (0, 0), v7, skipBack, Some((1, 0))) == Some(p[3..]);
    assert FirstOpen(adj[(1, 0)], v6, if skipBack then Some((2, 0)) else None) == Some(1);
    assert p[2..] == [p[2]] + p[3..];
    assert WalkPath(adj, s, (1, 0), v6, skipBack, Some((2, 0))) == Some(p[2..]);
    assert FirstOpen(adj[(2, 0)], v5, if skipBack then Some((3, 0)) else None) == Some(1);
    assert p[1..] == [p[1]] + p[2..];
    assert WalkPath(adj, s, (2, 0), v5, skipBack, Some((3, 0))) == Some(p[1..]);
    assert FirstOpen(adj[(3, 0)], v4, if skipBack then Some((3, 1)) else None) == Some(0);
    assert p == [p[0]] + p[1..];
  }

  /** The clockwise walk from its second cell: along the bottom row, then up the left side and on. */
  lemma TallWalkBottom(adj: AdjList, skipBack: bool)
    requires TallLists(adj)
    ensures WalkPath(adj, (1, 2), (3, 2), {(2, 2), (3, 2)}, skipBack, Some((2, 2))) ==
      Some([(3, 1), (3, 0), (2, 0), (1, 0), (0, 0), (0, 1), (0, 2), (1, 2)])
  {
    var s := (1, 2);
    var p := [(3, 1), (3, 0), (2, 0), (1, 0), (0, 0), (0, 1), (0, 2), (1, 2)];
    var v2 := {(2, 2), (3, 2)};
    var v3 := v2 + {(3, 1)};
    var v4 := v3 + {(3, 0)};
    TallWalkUpper(adj, skipBack);
    assert v4 == {(2, 2), (3, 2), (3, 1), (3, 0)};
    assert WalkPath(adj, s, (3, 0), v4, skipBack, Some((3, 1))) == Some(p[2..]);
    assert FirstOpen(adj[(3, 1)], v3, if skipBack then Some((3, 2)) else None) == Some(1);
    assert p[1..] == [p[1]] + p[2..];
    assert WalkPath(adj, s, (3, 1), v3, skipBack, Some((3, 2))) == Some(p[1..]);
    assert FirstOpen(adj[(3, 2)], v2, if skipBack then Some((2, 2)) else None) == Some(1);
    assert p == [p[0]] + p[1..];
  }

  /**
   * Here the first neighbour of the cell below the start is the cell further
   * down, so the walk, as written or corrected, goes round all ten cells:
   * down the right side, left along the bottom, up and right along the top.
   */
  lemma TallWalkClockwise(adj: AdjList, skipBack: bool)
    requires TallLists(adj)
    ensures WalkPath(adj, (1, 2), (1, 2), {}, skipBack, None) == Some([(2, 2), (3, 2), (3, 1), (3, 0), (2, 0), (1, 0), (0, 0), (0, 1), (0, 2), (1, 2)])
  {
    var s := (1, 2);
    var p := [(2, 2), (3, 2), (3, 1), (3, 0), (2, 0), (1, 0), (0, 0), (0, 1), (0, 2), (1, 2)];
    var v1 := {(2, 2)};
    var v2 := v1 + {(3, 2)};
    var v3 := v2 + {(3, 1)};
    TallWalkBottom(adj, skipBack);
    assert v2 == {(2, 2), (3, 2)};
    assert WalkPath(adj, s, (3, 2), v2, skipBack, Some((2, 2))) == Some(p[2..]);
    assert FirstOpen(adj[(2, 2)], v1, if skipBack then Some(s) else None) == Some(0);
    assert p[1..] == [p[1]] + p[2..];
    assert WalkPath(adj, s, (2, 2), v1, skipBack, Some(s)) == Some(p[1..]);
    assert FirstOpen(adj[s], {}, None) == Some(0);
    assert {} + {(2, 2)} == v1;
    assert p == [p[0]] + p[1..];
  }

  /** The loop runs clockwise, so its shoelace sum is negative: -12, twice the six-cell rectangle it bounds. */
  lemma TallArea()
    ensures PathArea((1, 2), [(2, 2), (3, 2), (3, 1), (3, 0), (2, 0), (1, 0), (0, 0), (0, 1), (0, 2), (1, 2)]) == -12
  {
    var p := [(2, 2), (3, 2), (3, 1), (3, 0), (2, 0), (1, 0), (0, 0), (0, 1), (0, 2), (1, 2)];
    assert PathArea((0, 2), p[9..]) == -2;
    assert PathArea((0, 1), p[8..]) == -2;
    assert PathArea((0, 0), p[7..]) == -2;
    assert PathArea((1, 0), p[6..]) == -2;
    assert PathArea((2, 0), p[5..]) == -2;
    assert PathArea((3, 0), p[4..]) == -2;
    assert PathArea((3, 1), p[3..]) == -5;
    assert PathArea((3, 2), p[2..]) == -8;
    assert PathArea((2, 2), p[1..]) == -10;
  }

  /**
   * As written the area stays signed: the clockwise walk halves -12 to -6,
   * and Pick's theorem then reports -10 enclosed cells where there are 2.
   */
  lemma TallGridSignedArea()
    ensures Solved(TallGrid(), false, false) == Some(Polygon(-6, -10, 10))
  {
    TallGridParse();
    var g := ScanRows(TallGrid(), 4).value;
    TallWalkClockwise(g.adj, false);
    TallArea();
    var p := WalkPath(g.adj, (1, 2), (1, 2), {}, false, None).value;
    assert |p| == 10 && Half(-12) == -6 && Half(10) == 5;
  }

  /**
   * With the area taken absolute the same walk encloses the two '.' cells
   * inside the loop, whether or not the walk is also kept from stepping back,
   * as it is in both parts.
   */
  lemma TallGridAbsoluteArea()
    ensures Solved(TallGrid(), false, true) == Some(Polygon(6, 2, 10))
    ensures Solved(TallGrid(), true, true) == Some(Polygon(6, 2, 10))
  {
    TallGridParse();
    var g := ScanRows(TallGrid(), 4).value;
    TallWalkClockwise(g.adj, false);
    TallWalkClockwise(g.adj, true);
    TallArea();
    var p := WalkPath(g.adj, (1, 2), (1, 2), {}, false, None).value;
    assert |p| == 10 && Half(-12) == -6 && Abs(-6) == 6 && Half(10) == 5;
  }
}
