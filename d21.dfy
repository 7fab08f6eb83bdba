/**
 * Day 21: the step counter. From the start, each step moves every reached
 * position one cell up, right, down or left, onto a garden plot; the garden
 * map repeats in every direction. The answer is the number of positions
 * reached after exactly the given number of steps.
 *
 * Positions are (row, column) on the infinite repeated map; a position is
 * looked up in the map by wrapping both coordinates with `rem_euclid`.
 */
module D21 {
  import opened Wrappers
  import opened Arith

  datatype Position = Plot | Rock

  type Cell = (int, int)

  type Garden = seq<seq<Position>>

  // ---------------------------------------------------------------------
  // Parsing
  // ---------------------------------------------------------------------

  /** '.' and 'S' are plots, '#' is a rock, anything else is a panic. */
  function PositionOf(c: char): (r: Option<Position>)
    ensures r.Some? <==> c == '.' || c == '#' || c == 'S'
    ensures r == Some(Rock) <==> c == '#'
  {
    match c
    case '.' => Some(Plot)
    case '#' => Some(Rock)
    case 'S' => Some(Plot)
    case _ => None
  }

  predicate Known(c: char)
  {
    c == '.' || c == '#' || c == 'S'
  }

  function ParseRow(line: string): (r: Option<seq<Position>>)
    ensures r.Some? <==> forall j :: 0 <= j < |line| ==> Known(line[j])
    ensures r.Some? ==> |r.value| == |line| && forall j :: 0 <= j < |line| ==> Some(r.value[j]) == PositionOf(line[j])
  {
    if line == [] then Some([])
    else
      var init := line[..|line| - 1];
      assert forall j :: 0 <= j < |init| ==> init[j] == line[j];
      match (ParseRow(init), PositionOf(line[|line| - 1]))
      case (Some(row), Some(p)) => Some(row + [p])
      case _ => None
  }

  function ParseRows(lines: seq<string>): (r: Option<Garden>)
    ensures r.Some? <==> forall i :: 0 <= i < |lines| ==> ParseRow(lines[i]).Some?
    ensures r.Some? ==> |r.value| == |lines| && forall i :: 0 <= i < |lines| ==> ParseRow(lines[i]) == Some(r.value[i])
  {
    MapAll(ParseRow, lines)
  }

  /** The column of the last 'S' in a line. */
  function LastS(line: string): (r: Option<nat>)
    ensures r.Some? ==> r.value < |line| && line[r.value] == 'S' && forall k :: r.value < k < |line| ==> line[k] != 'S'
    ensures r.None? ==> forall k :: 0 <= k < |line| ==> line[k] != 'S'
  {
    if line == [] then None
    else if line[|line| - 1] == 'S' then Some(|line| - 1)
    else
      var init := line[..|line| - 1];
      assert forall k :: 0 <= k < |init| ==> init[k] == line[k];
      LastS(init)
  }

  /** The start after reading the first n lines: the last 'S' in reading order, or (0, 0) when there is none. */
  function StartOf(lines: seq<string>, n: nat): (s: Cell)
    requires n <= |lines|
    ensures s == (0, 0) || (0 <= s.0 < n && 0 <= s.1 < |lines[s.0]| && lines[s.0][s.1] == 'S')
    ensures forall i, j :: 0 <= i < n && 0 <= j < |lines[i]| && lines[i][j] == 'S' ==> s.0 > i || (s.0 == i && s.1 >= j)
  {
    if n == 0 then (0, 0)
    else match LastS(lines[n - 1])
      case Some(j) => (n - 1, j)
      case None => StartOf(lines, n - 1)
  }

  /** The character loop of one line: its positions, and the start if the line holds an 'S'. */
  method ParseLine(line: string, i: nat, start0: Cell) returns (r: Option<(seq<Position>, Cell)>)
    ensures r.None? <==> ParseRow(line).None?
    ensures r.Some? ==> r.value.0 == ParseRow(line).value
    ensures r.Some? ==> r.value.1 == (if LastS(line).Some? then (i, LastS(line).value) else start0)
  {
    var row: seq<Position> := [];
    var start := start0;
    for j := 0 to |line|
      invariant ParseRow(line[..j]) == Some(row)
      invariant start == (if LastS(line[..j]).Some? then (i, LastS(line[..j]).value) else start0)
    {
      assert line[..j + 1][..j] == line[..j];
      match line[j] {
        case '.' =>
          row := row + [Plot];
        case '#' =>
          row := row + [Rock];
        case 'S' =>
          start := (i, j);
          row := row + [Plot];
        case _ =>
          assert !Known(line[j]);
          return None;
      }
    }
    assert line[..|line|] == line;
    return Some((row, start));
  }

  /** `parse_lines`: the garden map and the start; None where the source panics. */
  method ParseLines(lines: seq<string>) returns (r: Option<(Garden, Cell)>)
    ensures r.None? <==> ParseRows(lines).None?
    ensures r.Some? ==> r.value == (ParseRows(lines).value, StartOf(lines, |lines|))
  {
    var garden: Garden := [];
    var start: Cell := (0, 0);
    for i := 0 to |lines|
      invariant ParseRows(lines[..i]) == Some(garden)
      invariant start == StartOf(lines, i)
    {
      MapAllSnoc(ParseRow, lines, i);
      assert StartOf(lines, i + 1) == if LastS(lines[i]).Some? then (i, LastS(lines[i]).value) else StartOf(lines, i);
      var row := ParseLine(lines[i], i, start);
      if row.None? {
        assert ParseRow(lines[i]).None?;
        return None;
      }
      garden := garden + [row.value.0];
      start := row.value.1;
    }
    assert lines[..|lines|] == lines;
    return Some((garden, start));
  }

  // ---------------------------------------------------------------------
  // Steps on the repeated map
  // ---------------------------------------------------------------------

  /** Up, right, down, left. */
  function Dirs(): seq<Cell>
  {
    [(-1, 0), (0, 1), (1, 0), (0, -1)]
  }

  function Shift(c: Cell, d: Cell): Cell
  {
    (c.0 + d.0, c.1 + d.1)
  }

  /**
   * Whether position c of the repeated map is a plot; None where the lookup
   * panics: a map without rows or columns, or a wrapped column past the end
   * of a shorter row.
   */
  function OpenAt(g: Garden, c: Cell): Option<bool>
  {
    if |g| == 0 || |g[0]| == 0 then None
    else
      var ni := Wrap(c.0, |g|);
      var nj := Wrap(c.1, |g[0]|);
      if nj < |g[ni]| then Some(g[ni][nj] == Plot) else None
  }

  /** The repeated map looks the same one map height or width further on. */
  lemma OpenAtPeriodic(g: Garden, c: Cell)
    requires |g| > 0 && |g[0]| > 0
    ensures OpenAt(g, (c.0 + |g|, c.1)) == OpenAt(g, c)
    ensures OpenAt(g, (c.0, c.1 + |g[0]|)) == OpenAt(g, c)
  {
    WrapPeriodic(c.0, |g|);
    WrapPeriodic(c.1, |g[0]|);
  }

  /** The open neighbours among the first k directions; None when a lookup panics. */
  function NeighboursFrom(g: Garden, c: Cell, k: nat): (r: Option<set<Cell>>)
    requires k <= |Dirs()|
    ensures r.Some? ==> |r.value| <= k
    ensures r.Some? <==> forall q :: 0 <= q < k ==> OpenAt(g, Shift(c, Dirs()[q])).Some?
  {
    if k == 0 then Some({})
    else match NeighboursFrom(g, c, k - 1)
      case None => None
      case Some(ns) =>
        var t := Shift(c, Dirs()[k - 1]);
        match OpenAt(g, t)
        case None => None
        case Some(open) => Some(if open then ns + {t} else ns)
  }

  /** A position is collected exactly when one of the first k directions leads to it and it is a plot. */
  lemma {:induction false} NeighboursFromMeaning(g: Garden, c: Cell, k: nat, t: Cell)
    requires k <= |Dirs()| && NeighboursFrom(g, c, k).Some?
    ensures t in NeighboursFrom(g, c, k).value <==>
      OpenAt(g, t) == Some(true) && exists q :: 0 <= q < k && t == Shift(c, Dirs()[q])
  {
    if k > 0 {
      NeighboursFromMeaning(g, c, k - 1, t);
      if exists q :: 0 <= q < k && t == Shift(c, Dirs()[q]) {
        var q :| 0 <= q < k && t == Shift(c, Dirs()[q]);
        if q < k - 1 {
          assert exists q' :: 0 <= q' < k - 1 && t == Shift(c, Dirs()[q']);
        }
      }
    }
  }

  /** The positions one step away from c that are plots. */
  function Neighbours(g: Garden, c: Cell): Option<set<Cell>>
  {
    NeighboursFrom(g, c, 4)
  }

  /** t is one cell up, down, left or right of c. */
  predicate Adjacent(c: Cell, t: Cell)
  {
    (t.0 == c.0 && (t.1 == c.1 + 1 || t.1 == c.1 - 1)) || (t.1 == c.1 && (t.0 == c.0 + 1 || t.0 == c.0 - 1))
  }

  /** The four directions lead exactly to the orthogonally adjacent cells. */
  lemma DirsAreOrthogonal(c: Cell, t: Cell)
    ensures (exists q :: 0 <= q < 4 && t == Shift(c, Dirs()[q])) <==> Adjacent(c, t)
  {
    if t.0 == c.0 && t.1 == c.1 + 1 {
      assert t == Shift(c, Dirs()[1]);
    } else if t.0 == c.0 && t.1 == c.1 - 1 {
      assert t == Shift(c, Dirs()[3]);
    } else if t.1 == c.1 && t.0 == c.0 + 1 {
      assert t == Shift(c, Dirs()[2]);
    } else if t.1 == c.1 && t.0 == c.0 - 1 {
      assert t == Shift(c, Dirs()[0]);
    }
  }

  /** No step is possible when some position of the set has a neighbour whose lookup panics. */
  ghost predicate StepPanics(g: Garden, vis: set<Cell>)
  {
    exists c :: c in vis && Neighbours(g, c).None?
  }

  /** Every open neighbour of a position in the set. */
  ghost function StepSet(g: Garden, vis: set<Cell>): set<Cell>
  {
    set c, t | c in vis && Neighbours(g, c).Some? && t in Neighbours(g, c).value :: t
  }

  /** One step: the plots next to the reached positions; None when a lookup panics. */
  ghost function Step(g: Garden, vis: set<Cell>): Option<set<Cell>>
  {
    if StepPanics(g, vis) then None else Some(StepSet(g, vis))
  }

  /** The positions reached after k steps from the start. */
  ghost function Reach(g: Garden, start: Cell, k: nat): Option<set<Cell>>
  {
    if k == 0 then Some({start})
    else match Reach(g, start, k - 1)
      case None => None
      case Some(vis) => Step(g, vis)
  }

  /** A position is reached in one more step exactly when it is an open neighbour of one reached now. */
  lemma StepMeaning(g: Garden, vis: set<Cell>, t: Cell)
    requires Step(g, vis).Some?
    ensures t in Step(g, vis).value <==> OpenAt(g, t) == Some(true) && exists c :: c in vis && Adjacent(c, t)
  {
    if t in Step(g, vis).value {
      var c :| c in vis && Neighbours(g, c).Some? && t in Neighbours(g, c).value;
      NeighboursFromMeaning(g, c, 4, t);
      DirsAreOrthogonal(c, t);
    }
    if OpenAt(g, t) == Some(true) && exists c :: c in vis && Adjacent(c, t) {
      var c :| c in vis && Adjacent(c, t);
      DirsAreOrthogonal(c, t);
      assert Neighbours(g, c).Some?;
      NeighboursFromMeaning(g, c, 4, t);
      assert t in Neighbours(g, c).value;
    }
  }

  lemma StepSetAdd(g: Garden, done: set<Cell>, c: Cell)
    requires Neighbours(g, c).Some?
    ensures StepSet(g, done + {c}) == StepSet(g, done) + Neighbours(g, c).value
  {
  }

  /** Each reached position adds at most four positions to the next step. */
  lemma {:induction false} StepSetBound(g: Garden, vis: set<Cell>)
    requires !StepPanics(g, vis)
    ensures |StepSet(g, vis)| <= 4 * |vis|
    decreases |vis|
  {
    if vis != {} {
      var c :| c in vis;
      var rest := vis - {c};
      assert vis == rest + {c};
      StepSetBound(g, rest);
      StepSetAdd(g, rest, c);
    } else {
      assert StepSet(g, vis) == {};
    }
  }

  function Pow4(k: nat): nat
  {
    if k == 0 then 1 else 4 * Pow4(k - 1)
  }

  lemma ReachNext(g: Garden, start: Cell, k: nat)
    requires k > 0 && Reach(g, start, k).Some?
    ensures Reach(g, start, k - 1).Some? && Reach(g, start, k) == Step(g, Reach(g, start, k - 1).value)
  {
  }

  /** After k steps at most 4^k positions are reached. */
  lemma {:induction false} ReachBound(g: Garden, start: Cell, k: nat)
    requires Reach(g, start, k).Some?
    ensures |Reach(g, start, k).value| <= Pow4(k)
  {
    if k > 0 {
      ReachBound(g, start, k - 1);
      var vis := Reach(g, start, k - 1).value;
      assert Reach(g, start, k) == Step(g, vis);
      StepSetBound(g, vis);
      assert |vis| <= Pow4(k - 1);
    }
  }

  /** Manhattan distance. */
  function Dist(a: Cell, b: Cell): nat
  {
    Abs(a.0 - b.0) + Abs(a.1 - b.1)
  }

  /** t can be at the end of a walk of exactly k orthogonal moves from s. */
  predicate WithinSteps(s: Cell, k: nat, t: Cell)
  {
    Dist(s, t) <= k && (k - Dist(s, t)) % 2 == 0
  }

  /** One orthogonal move changes the distance from any point by exactly one, and so flips its parity. */
  lemma WithinOneMore(s: Cell, k: nat, c: Cell, t: Cell)
    requires WithinSteps(s, k, c) && Adjacent(c, t)
    ensures WithinSteps(s, k + 1, t)
  {
    assert Dist(s, t) == Dist(s, c) + 1 || Dist(s, t) + 1 == Dist(s, c);
    var e := k - Dist(s, c);
    assert k + 1 - Dist(s, t) == e || k + 1 - Dist(s, t) == e + 2;
  }

  /** A step moves every position of a set that lies within k steps one step further. */
  lemma StepWithin(g: Garden, vis: set<Cell>, start: Cell, k: nat, t: Cell)
    requires Step(g, vis).Some? && t in Step(g, vis).value
    requires forall c :: c in vis ==> WithinSteps(start, k, c)
    ensures OpenAt(g, t) == Some(true) && WithinSteps(start, k + 1, t)
  {
    StepMeaning(g, vis, t);
    var c :| c in vis && Adjacent(c, t);
    WithinOneMore(start, k, c, t);
  }

  /**
   * Every position reached after k steps (k >= 1) is a plot, lies within k
   * steps of the start, and has the parity of k (each step flips it).
   */
  lemma {:induction false} ReachWithinSteps(g: Garden, start: Cell, k: nat)
    requires Reach(g, start, k).Some?
    ensures forall t :: t in Reach(g, start, k).value ==> WithinSteps(start, k, t)
    ensures k >= 1 ==> forall t :: t in Reach(g, start, k).value ==> OpenAt(g, t) == Some(true)
  {
    if k > 0 {
      ReachNext(g, start, k);
      var vis := Reach(g, start, k - 1).value;
      ReachWithinSteps(g, start, k - 1);
      forall t | t in Step(g, vis).value
        ensures OpenAt(g, t) == Some(true) && WithinSteps(start, k, t)
      {
        StepWithin(g, vis, start, k - 1, t);
      }
    } else {
      assert Reach(g, start, k).value == {start};
    }
  }

  /** The inner loop over the four directions of one reached position. */
  method AddNeighbours(g: Garden, c: Cell, nxt0: set<Cell>) returns (r: Option<set<Cell>>)
    ensures r.None? <==> Neighbours(g, c).None?
    ensures r.Some? ==> r.value == nxt0 + Neighbours(g, c).value
  {
    var dirs := Dirs();
    var nxt := nxt0;
    for k := 0 to |dirs|
      invariant NeighboursFrom(g, c, k).Some? && nxt == nxt0 + NeighboursFrom(g, c, k).value
    {
      NeighboursStep(g, c, k);
      var t := Shift(c, dirs[k]);
      if |g| == 0 || |g[0]| == 0 {
        NeighboursFails(g, c, k + 1);
        return None;
      }
      var ni, nj := Wrap(t.0, |g|), Wrap(t.1, |g[0]|);
      if nj >= |g[ni]| {
        NeighboursFails(g, c, k + 1);
        return None;
      }
      if g[ni][nj] == Rock {
        continue;
      }
      nxt := nxt + {t};
    }
    return Some(nxt);
  }

  /** One more direction: what `NeighboursFrom` adds for it. */
  lemma NeighboursStep(g: Garden, c: Cell, k: nat)
    requires k < |Dirs()| && NeighboursFrom(g, c, k).Some?
    ensures OpenAt(g, Shift(c, Dirs()[k])).None? ==> NeighboursFrom(g, c, k + 1).None?
    ensures OpenAt(g, Shift(c, Dirs()[k])) == Some(false) ==> NeighboursFrom(g, c, k + 1) == NeighboursFrom(g, c, k)
    ensures OpenAt(g, Shift(c, Dirs()[k])) == Some(true) ==>
      NeighboursFrom(g, c, k + 1) == Some(NeighboursFrom(g, c, k).value + {Shift(c, Dirs()[k])})
  {
  }

  lemma {:induction false} NeighboursFails(g: Garden, c: Cell, k: nat)
    requires k <= 4 && NeighboursFrom(g, c, k).None?
    ensures Neighbours(g, c).None?
  {
  }

  /** One step: every reached position, in whatever order the set yields them. */
  method StepOnce(g: Garden, vis: set<Cell>) returns (r: Option<set<Cell>>)
    ensures r == Step(g, vis)
  {
    var nxt: set<Cell> := {};
    var left := vis;
    while left != {}
      invariant left <= vis
      invariant !StepPanics(g, vis - left)
      invariant nxt == StepSet(g, vis - left)
      decreases |left|
    {
      var c :| c in left;
      var added := AddNeighbours(g, c, nxt);
      if added.None? {
        return None;
      }
      StepSetAdd(g, vis - left, c);
      assert vis - (left - {c}) == (vis - left) + {c};
      nxt := added.value;
      left := left - {c};
    }
    assert vis - left == vis;
    return Some(nxt);
  }

  /** The result of `explore_map`; None where the source panics (no rows, or a lookup). */
  ghost function Explored(g: Garden, start: Cell, numSteps: nat): Option<nat>
  {
    if g == [] then None
    else match Reach(g, start, numSteps)
      case None => None
      case Some(vis) => Some(|vis|)
  }

  /** `explore_map`: replace the reached set by its next step, numSteps times, and count it. */
  method ExploreMap(g: Garden, start: Cell, numSteps: nat) returns (r: Option<nat>)
    ensures r == Explored(g, start, numSteps)
  {
    if |g| == 0 {
      return None;
    }
    var vis: set<Cell> := {start};
    for step := 0 to numSteps
      invariant Reach(g, start, step) == Some(vis)
    {
      var nxt := StepOnce(g, vis);
      if nxt.None? {
        ReachFails(g, start, step + 1, numSteps);
        return None;
      }
      vis := nxt.value;
    }
    return Some(|vis|);
  }

  lemma {:induction false} ReachFails(g: Garden, start: Cell, k: nat, n: nat)
    requires k <= n && Reach(g, start, k).None?
    ensures Reach(g, start, n).None?
    decreases n
  {
    if n > k {
      ReachFails(g, start, k, n - 1);
    }
  }

  /** With no steps only the start is reached; the count after k steps is at most 4^k. */
  lemma ExploredFacts(g: Garden, start: Cell, k: nat)
    ensures g != [] ==> Explored(g, start, 0) == Some(1)
    ensures Explored(g, start, k).Some? ==> Explored(g, start, k).value <= Pow4(k)
  {
    if Explored(g, start, k).Some? {
      ReachBound(g, start, k);
    }
  }

  /** The whole puzzle for a number of steps: parse, then explore. */
  ghost function Solved(lines: seq<string>, numSteps: nat): Option<nat>
  {
    match ParseRows(lines)
    case None => None
    case Some(g) => Explored(g, StartOf(lines, |lines|), numSteps)
  }

  method P1(lines: seq<string>) returns (r: Option<nat>)
    ensures r == Solved(lines, 64)
  {
    var parsed := ParseLines(lines);
    if parsed.None? {
      return None;
    }
    r := ExploreMap(parsed.value.0, parsed.value.1, 64);
  }

  method P2(lines: seq<string>) returns (r: Option<nat>)
    ensures r == Solved(lines, 100)
  {
    var parsed := ParseLines(lines);
    if parsed.None? {
      return None;
    }
    r := ExploreMap(parsed.value.0, parsed.value.1, 100);
  }
}
