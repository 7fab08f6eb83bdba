/**
 * Day 17: least heat loss of a crucible that crosses a grid of digit costs
 * from the top-left cell to the bottom-right cell. A search state remembers
 * the position, the direction of the last move and how many moves in a row
 * went that way (`sameDirTimes`); `minConsec` and `maxConsec` restrict when
 * the crucible may turn. The search is Dijkstra's algorithm with lazy
 * deletion: a min-heap of states ordered by heat loss and a visited set of
 * (position-with-direction, run) keys.
 */
module D17 {
  import opened Wrappers
  import Text

  datatype Direction = Up | Down | Left | Right

  /** `Direction::opposite`: the reverse direction, never the argument itself. */
  function Opposite(d: Direction): (r: Direction)
    ensures r != d
    ensures Delta(r).0 == -Delta(d).0 && Delta(r).1 == -Delta(d).1
  {
    match d
    case Up => Down
    case Down => Up
    case Left => Right
    case Right => Left
  }

  lemma OppositeInvolution(d: Direction)
    ensures Opposite(Opposite(d)) == d
  {
  }

  /** Row and column offset of one move. */
  function Delta(d: Direction): (int, int)
  {
    match d
    case Up => (-1, 0)
    case Down => (1, 0)
    case Left => (0, -1)
    case Right => (0, 1)
  }

  datatype Position = Position(x: int, y: int, dir: Direction)

  datatype Crucible = Crucible(position: Position, sameDirTimes: int, heatLoss: int)

  /** The visited-set key: position with direction, and run length. */
  type Key = (Position, int)

  function KeyOf(c: Crucible): Key
  {
    (c.position, c.sameDirTimes)
  }

  /** `parse_lines`: one digit per cell; `None` where `to_digit(10).unwrap()` panics. */
  function ParseLines(lines: seq<string>): (r: Option<seq<seq<int>>>)
    ensures r.Some? <==> forall i, j :: 0 <= i < |lines| && 0 <= j < |lines[i]| ==> Text.IsDigit(lines[i][j])
    ensures r.Some? ==> |r.value| == |lines|
    ensures r.Some? ==> forall i :: 0 <= i < |lines| ==> |r.value[i]| == |lines[i]|
    ensures r.Some? ==> forall i, j :: 0 <= i < |lines| && 0 <= j < |lines[i]| ==>
      0 <= r.value[i][j] <= 9 && r.value[i][j] == Text.DigitValue(lines[i][j])
  {
    if forall i, j :: 0 <= i < |lines| && 0 <= j < |lines[i]| ==> Text.IsDigit(lines[i][j]) then
      Some(seq(|lines|, i requires 0 <= i < |lines| =>
        seq(|lines[i]|, j requires 0 <= j < |lines[i]| => Text.DigitValue(lines[i][j]) as int)))
    else None
  }

  /**
   * A grid the search can run on: at least one row, no row shorter than the
   * first (whose length is the width `n`), and no negative cost.
   */
  predicate IsGrid(grid: seq<seq<int>>)
  {
    && |grid| > 0
    && (forall i :: 0 <= i < |grid| ==> |grid[i]| >= |grid[0]|)
    && (forall i, j :: 0 <= i < |grid| && 0 <= j < |grid[i]| ==> grid[i][j] >= 0)
  }

  /** The order in which `iterate_grid` lists the directions. */
  const AllDirs: seq<Direction> := [Up, Down, Left, Right]

  /** The three `retain` filters of `iterate_grid`, taken together. */
  predicate Allowed(cur: Direction, same: int, minConsec: int, maxConsec: int, d: Direction)
  {
    && d != Opposite(cur)
    && (same < minConsec ==> d == cur)
    && (same == maxConsec ==> d != cur)
  }

  /**
   * The `consider_dirs` list of `iterate_grid`: never reverse; keep going
   * straight while the run is shorter than `minConsec`; turn once the run
   * has reached `maxConsec`. Each direction appears at most once.
   */
  function ConsiderDirs(cur: Direction, same: int, minConsec: int, maxConsec: int): (r: seq<Direction>)
    ensures forall d :: d in r <==>
      && d != Opposite(cur)
      && (same < minConsec ==> d == cur)
      && (same == maxConsec ==> d != cur)
  {
    var keep := d => Allowed(cur, same, minConsec, maxConsec, d);
    var r := Filter(AllDirs, keep);
    forall d ensures d in r <==> Allowed(cur, same, minConsec, maxConsec, d) {
      AllDirsComplete(d);
      FilterIn(AllDirs, keep, d);
    }
    r
  }

  /** No direction is considered twice, so no move is pushed twice from one state. */
  lemma ConsiderDirsDistinct(cur: Direction, same: int, minConsec: int, maxConsec: int)
    ensures Distinct(ConsiderDirs(cur, same, minConsec, maxConsec))
  {
    assert Distinct(AllDirs);
    FilterDistinct(AllDirs, d => Allowed(cur, same, minConsec, maxConsec, d));
  }

  lemma AllDirsComplete(d: Direction)
    ensures d in AllDirs
  {
    assert AllDirs == [Up, Down, Left, Right];
    match d
    case Up => assert AllDirs[0] == d;
    case Down => assert AllDirs[1] == d;
    case Left => assert AllDirs[2] == d;
    case Right => assert AllDirs[3] == d;
  }

  predicate Distinct<T(==)>(s: seq<T>)
  {
    forall i, j :: 0 <= i < j < |s| ==> s[i] != s[j]
  }

  lemma {:induction false} FilterIn<T>(s: seq<T>, keep: T -> bool, x: T)
    ensures x in Filter(s, keep) <==> x in s && keep(x)
  {
    if x in Filter(s, keep) {
      var i :| 0 <= i < |Filter(s, keep)| && Filter(s, keep)[i] == x;
    }
  }

  lemma {:induction false} FilterDistinct<T>(s: seq<T>, keep: T -> bool)
    requires Distinct(s)
    ensures Distinct(Filter(s, keep))
  {
    if s != [] {
      FilterDistinct(s[1..], keep);
      var r := Filter(s, keep);
      var rest := Filter(s[1..], keep);
      if keep(s[0]) {
        assert r == [s[0]] + rest;
        forall j | 0 < j < |r| ensures r[0] != r[j] {
          assert r[j] == rest[j - 1];
          FilterIn(s[1..], keep, r[j]);
          var k :| 0 <= k < |s[1..]| && s[1..][k] == r[j];
          assert s[k + 1] == r[j];
        }
      } else {
        assert r == rest;
      }
    }
  }

  /** The move from `c` in direction `d` stays inside the m x n grid. */
  predicate CanMove(grid: seq<seq<int>>, c: Crucible, d: Direction)
    requires IsGrid(grid)
  {
    var nx := c.position.x + Delta(d).0;
    var ny := c.position.y + Delta(d).1;
    0 <= nx < |grid| && 0 <= ny < |grid[0]|
  }

  /** The crucible pushed for one direction: run counter and heat loss updated. */
  function Step(grid: seq<seq<int>>, c: Crucible, d: Direction): Crucible
    requires IsGrid(grid) && CanMove(grid, c, d)
  {
    var nx := c.position.x + Delta(d).0;
    var ny := c.position.y + Delta(d).1;
    Crucible(Position(nx, ny, d),
             if d == c.position.dir then c.sameDirTimes + 1 else 1,
             c.heatLoss + grid[nx][ny])
  }

  /** The crucibles pushed for the directions `dirs`, in order, skipping moves off the grid. */
  function Expand(grid: seq<seq<int>>, c: Crucible, dirs: seq<Direction>): seq<Crucible>
    requires IsGrid(grid)
  {
    if dirs == [] then []
    else
      var d := dirs[|dirs| - 1];
      Expand(grid, c, dirs[..|dirs| - 1]) + (if CanMove(grid, c, d) then [Step(grid, c, d)] else [])
  }

  lemma {:induction false} ExpandIn(grid: seq<seq<int>>, c: Crucible, dirs: seq<Direction>, s: Crucible)
    requires IsGrid(grid)
    ensures s in Expand(grid, c, dirs) <==>
      s.position.dir in dirs && CanMove(grid, c, s.position.dir) && s == Step(grid, c, s.position.dir)
  {
    if dirs != [] {
      var init := dirs[..|dirs| - 1];
      ExpandIn(grid, c, init, s);
      assert dirs == init + [dirs[|dirs| - 1]];
    }
  }

  /** `s` is one of the states `iterate_grid` pushes when it expands `c`. */
  predicate IsSuccessor(grid: seq<seq<int>>, minConsec: int, maxConsec: int, c: Crucible, s: Crucible)
    requires IsGrid(grid)
  {
    && Allowed(c.position.dir, c.sameDirTimes, minConsec, maxConsec, s.position.dir)
    && CanMove(grid, c, s.position.dir)
    && s == Step(grid, c, s.position.dir)
  }

  /** All states pushed when `c` is expanded. */
  function Successors(grid: seq<seq<int>>, minConsec: int, maxConsec: int, c: Crucible): (r: seq<Crucible>)
    requires IsGrid(grid)
    ensures forall s :: s in r <==> IsSuccessor(grid, minConsec, maxConsec, c, s)
  {
    var r := Expand(grid, c, ConsiderDirs(c.position.dir, c.sameDirTimes, minConsec, maxConsec));
    forall s ensures s in r <==> IsSuccessor(grid, minConsec, maxConsec, c, s) {
      ExpandIn(grid, c, ConsiderDirs(c.position.dir, c.sameDirTimes, minConsec, maxConsec), s);
    }
    r
  }

  /**
   * The transition rule: a successor never reverses, keeps the direction
   * while the run is below `minConsec`, turns at `maxConsec`, stays in the
   * grid, counts its run and pays the cost of the cell it enters.
   */
  lemma SuccessorRules(grid: seq<seq<int>>, minConsec: int, maxConsec: int, c: Crucible, s: Crucible)
    requires IsGrid(grid) && IsSuccessor(grid, minConsec, maxConsec, c, s)
    ensures s.position.dir != Opposite(c.position.dir)
    ensures c.sameDirTimes < minConsec ==> s.position.dir == c.position.dir
    ensures c.sameDirTimes == maxConsec ==> s.position.dir != c.position.dir
    ensures 0 <= s.position.x < |grid| && 0 <= s.position.y < |grid[0]|
    ensures s.position.x == c.position.x + Delta(s.position.dir).0
    ensures s.position.y == c.position.y + Delta(s.position.dir).1
    ensures s.sameDirTimes == if s.position.dir == c.position.dir then c.sameDirTimes + 1 else 1
    ensures s.heatLoss == c.heatLoss + grid[s.position.x][s.position.y]
    ensures s.heatLoss >= c.heatLoss
  {
  }

  /** The two seeds of `iterate_grid`: at the origin, facing Right or Down, run 0, no heat loss. */
  function Seed(d: Direction): Crucible
  {
    Crucible(Position(0, 0, d), 0, 0)
  }

  predicate IsSeed(c: Crucible)
  {
    c == Seed(Right) || c == Seed(Down)
  }

  /** A sequence of states that the search could push one after another, from a seed. */
  ghost predicate IsPath(grid: seq<seq<int>>, minConsec: int, maxConsec: int, p: seq<Crucible>)
    requires IsGrid(grid)
    decreases |p|
  {
    if |p| <= 1 then
      |p| == 1 && IsSeed(p[0])
    else
      && IsPath(grid, minConsec, maxConsec, p[..|p| - 1])
      && IsSuccessor(grid, minConsec, maxConsec, p[|p| - 2], p[|p| - 1])
  }

  function Last(p: seq<Crucible>): Crucible
    requires |p| > 0
  {
    p[|p| - 1]
  }

  /** The target test of `iterate_grid`: position only, the run length is not checked. */
  predicate AtTarget(grid: seq<seq<int>>, pos: Position)
    requires IsGrid(grid)
  {
    pos.x == |grid| - 1 && pos.y == |grid[0]| - 1
  }

  ghost predicate Reaches(grid: seq<seq<int>>, minConsec: int, maxConsec: int, p: seq<Crucible>)
    requires IsGrid(grid)
  {
    IsPath(grid, minConsec, maxConsec, p) && AtTarget(grid, Last(p).position)
  }

  /** Width of the key space: the seeds sit at column 0 even when rows are empty. */
  function Cols(grid: seq<seq<int>>): nat
    requires IsGrid(grid)
  {
    if |grid[0]| == 0 then 1 else |grid[0]|
  }

  predicate InKeySpace(grid: seq<seq<int>>, maxConsec: int, c: Crucible)
    requires IsGrid(grid)
  {
    0 <= c.position.x < |grid| && 0 <= c.position.y < Cols(grid) && 0 <= c.sameDirTimes <= maxConsec
  }

  /** Every key the search can ever mark visited. */
  function KeySpace(grid: seq<seq<int>>, maxConsec: int): set<Key>
    requires IsGrid(grid)
  {
    set x: int, y: int, d: Direction, r: int
      | 0 <= x < |grid| && 0 <= y < Cols(grid) && d in AllDirs && 0 <= r <= maxConsec
      :: (Position(x, y, d), r)
  }

  lemma KeyInKeySpace(grid: seq<seq<int>>, maxConsec: int, c: Crucible)
    requires IsGrid(grid) && InKeySpace(grid, maxConsec, c)
    ensures KeyOf(c) in KeySpace(grid, maxConsec)
  {
    AllDirsComplete(c.position.dir);
  }

  lemma PathExtend(grid: seq<seq<int>>, minConsec: int, maxConsec: int, p: seq<Crucible>, s: Crucible)
    requires IsGrid(grid) && IsPath(grid, minConsec, maxConsec, p)
    requires IsSuccessor(grid, minConsec, maxConsec, Last(p), s)
    ensures IsPath(grid, minConsec, maxConsec, p + [s]) && Last(p + [s]) == s
  {
    assert (p + [s])[..|p|] == p;
  }

  /** Along a path the run length stays within [0, maxConsec] once the cap is at least 1. */
  lemma {:induction false} PathRunBounded(grid: seq<seq<int>>, minConsec: int, maxConsec: int, p: seq<Crucible>)
    requires IsGrid(grid) && 1 <= maxConsec && IsPath(grid, minConsec, maxConsec, p)
    ensures forall i :: 0 <= i < |p| ==> 0 <= p[i].sameDirTimes <= maxConsec
    decreases |p|
  {
    if |p| > 1 {
      var q := p[..|p| - 1];
      PathRunBounded(grid, minConsec, maxConsec, q);
      SuccessorRules(grid, minConsec, maxConsec, p[|p| - 2], p[|p| - 1]);
      forall i | 0 <= i < |p| ensures 0 <= p[i].sameDirTimes <= maxConsec {
        if i < |p| - 1 { assert p[i] == q[i]; }
      }
    }
  }

  /** Heat loss never decreases along a path. */
  lemma {:induction false} PathHeatMonotone(grid: seq<seq<int>>, minConsec: int, maxConsec: int, p: seq<Crucible>, i: int)
    requires IsGrid(grid) && IsPath(grid, minConsec, maxConsec, p)
    requires 0 <= i < |p|
    ensures p[i].heatLoss <= Last(p).heatLoss
    decreases |p|
  {
    if i < |p| - 1 {
      var q := p[..|p| - 1];
      SuccessorRules(grid, minConsec, maxConsec, p[|p| - 2], p[|p| - 1]);
      PathHeatMonotone(grid, minConsec, maxConsec, q, i);
      assert q[i] == p[i];
    }
  }

  /**
   * A successor depends on the predecessor's key only, and its heat loss
   * grows with the predecessor's: from a cheaper state with the same key the
   * same move reaches the same key no more expensively.
   */
  lemma ShiftSuccessor(grid: seq<seq<int>>, minConsec: int, maxConsec: int, a: Crucible, f: Crucible, b: Crucible)
    requires IsGrid(grid) && IsSuccessor(grid, minConsec, maxConsec, a, b)
    requires KeyOf(f) == KeyOf(a) && f.heatLoss <= a.heatLoss
    ensures CanMove(grid, f, b.position.dir)
    ensures IsSuccessor(grid, minConsec, maxConsec, f, Step(grid, f, b.position.dir))
    ensures KeyOf(Step(grid, f, b.position.dir)) == KeyOf(b)
    ensures Step(grid, f, b.position.dir).heatLoss <= b.heatLoss
  {
  }

  // ---------------------------------------------------------------------
  // The search invariant
  // ---------------------------------------------------------------------

  /**
   * The state `c` is dominated: its key is finalized at no greater cost, or
   * the heap holds an entry with its key and no greater cost.
   */
  ghost predicate Covered(heap: multiset<Crucible>, best: map<Key, int>, c: Crucible)
  {
    || (KeyOf(c) in best && best[KeyOf(c)] <= c.heatLoss)
    || (exists h :: h in heap && KeyOf(h) == KeyOf(c) && h.heatLoss <= c.heatLoss)
  }

  /** The crucible a finalized key stands for. */
  function Finalized(k: Key, cost: int): Crucible
  {
    Crucible(k.0, k.1, cost)
  }

  /**
   * Bookkeeping: `best` records the cost at which each visited key was
   * finalized; `level`, the cost of the last pop, separates finalized costs
   * from the heap; no visited key is at the target.
   */
  ghost predicate InvShape(grid: seq<seq<int>>, maxConsec: int,
                           heap: multiset<Crucible>, vis: set<Key>, best: map<Key, int>, level: int)
    requires IsGrid(grid)
  {
    && best.Keys == vis
    && vis <= KeySpace(grid, maxConsec)
    && 0 <= level
    && (forall h :: h in heap ==> InKeySpace(grid, maxConsec, h) && level <= h.heatLoss)
    && (forall k :: k in vis ==> best[k] <= level && !AtTarget(grid, k.0))
  }

  /** Every heap entry is the end of a path. */
  ghost predicate InvWit(grid: seq<seq<int>>, minConsec: int, maxConsec: int,
                         heap: multiset<Crucible>, wit: map<Crucible, seq<Crucible>>)
    requires IsGrid(grid)
  {
    forall h :: h in heap ==> h in wit && IsPath(grid, minConsec, maxConsec, wit[h]) && Last(wit[h]) == h
  }

  /** A finalized cost is no more than any path's cost to that key. */
  ghost predicate InvOpt(grid: seq<seq<int>>, minConsec: int, maxConsec: int, best: map<Key, int>)
    requires IsGrid(grid)
  {
    forall p :: IsPath(grid, minConsec, maxConsec, p) && KeyOf(Last(p)) in best ==>
      best[KeyOf(Last(p))] <= Last(p).heatLoss
  }

  /** The seeds and the successors of every finalized key are covered. */
  ghost predicate InvCover(grid: seq<seq<int>>, minConsec: int, maxConsec: int,
                           heap: multiset<Crucible>, best: map<Key, int>)
    requires IsGrid(grid)
  {
    && Covered(heap, best, Seed(Right))
    && Covered(heap, best, Seed(Down))
    && forall k, s :: k in best && IsSuccessor(grid, minConsec, maxConsec, Finalized(k, best[k]), s) ==>
         Covered(heap, best, s)
  }

  /**
   * The Dijkstra argument: every path whose final key is not finalized yet is
   * dominated by some heap entry.
   */
  lemma {:induction false} Frontier(grid: seq<seq<int>>, minConsec: int, maxConsec: int,
                                    heap: multiset<Crucible>, best: map<Key, int>, p: seq<Crucible>)
    requires IsGrid(grid)
    requires InvOpt(grid, minConsec, maxConsec, best) && InvCover(grid, minConsec, maxConsec, heap, best)
    requires IsPath(grid, minConsec, maxConsec, p) && KeyOf(Last(p)) !in best
    ensures exists h :: h in heap && h.heatLoss <= Last(p).heatLoss
  {
    if |p| == 1 {
      assert Covered(heap, best, p[0]);
    } else {
      var q := p[..|p| - 1];
      var a, b := Last(q), Last(p);
      SuccessorRules(grid, minConsec, maxConsec, a, b);
      if KeyOf(a) !in best {
        Frontier(grid, minConsec, maxConsec, heap, best, q);
      } else {
        var k := KeyOf(a);
        var f := Finalized(k, best[k]);
        ShiftSuccessor(grid, minConsec, maxConsec, a, f, b);
        var s := Step(grid, f, b.position.dir);
        assert Covered(heap, best, s);
      }
    }
  }

  predicate IsMinOf(c: Crucible, heap: multiset<Crucible>)
  {
    forall h :: h in heap ==> c.heatLoss <= h.heatLoss
  }

  /** A non-empty heap has an entry of least heat loss. */
  lemma {:induction false} MinExists(heap: multiset<Crucible>)
    requires heap != multiset{}
    ensures exists c :: c in heap && IsMinOf(c, heap)
    decreases |heap|
  {
    var x :| x in heap;
    var rest := heap - multiset{x};
    assert heap == rest + multiset{x};
    if rest == multiset{} {
      assert IsMinOf(x, heap);
    } else {
      MinExists(rest);
      var y :| y in rest && IsMinOf(y, rest);
      if x.heatLoss < y.heatLoss {
        assert IsMinOf(x, heap);
      } else {
        assert y in heap && IsMinOf(y, heap);
      }
    }
  }

  /** Removing the popped entry `c` keeps every state covered once `c`'s key is finalized. */
  lemma CoveredAfterPop(heap: multiset<Crucible>, best: map<Key, int>, best': map<Key, int>, c: Crucible, s: Crucible)
    requires Covered(heap, best, s) && c in heap
    requires forall k :: k in best ==> k in best' && best'[k] == best[k]
    requires KeyOf(c) in best' && best'[KeyOf(c)] <= c.heatLoss
    ensures Covered(heap - multiset{c}, best', s)
  {
    if !(KeyOf(s) in best && best[KeyOf(s)] <= s.heatLoss) {
      var h :| h in heap && KeyOf(h) == KeyOf(s) && h.heatLoss <= s.heatLoss;
      if h !in heap - multiset{c} {
        assert h == c;
      }
    }
  }

  lemma CoveredAfterPush(heap: multiset<Crucible>, more: multiset<Crucible>, best: map<Key, int>, s: Crucible)
    requires Covered(heap, best, s)
    ensures Covered(heap + more, best, s)
  {
    if !(KeyOf(s) in best && best[KeyOf(s)] <= s.heatLoss) {
      var h :| h in heap && KeyOf(h) == KeyOf(s) && h.heatLoss <= s.heatLoss;
      assert h in heap + more;
    }
  }

  /** Popping an entry whose key is already finalized keeps the invariant. */
  lemma PopStale(grid: seq<seq<int>>, minConsec: int, maxConsec: int,
                 heap: multiset<Crucible>, vis: set<Key>, best: map<Key, int>, level: int, c: Crucible)
    requires IsGrid(grid)
    requires InvShape(grid, maxConsec, heap, vis, best, level)
    requires InvCover(grid, minConsec, maxConsec, heap, best)
    requires c in heap && KeyOf(c) in vis
    ensures InvShape(grid, maxConsec, heap - multiset{c}, vis, best, level)
    ensures InvCover(grid, minConsec, maxConsec, heap - multiset{c}, best)
  {
    var heap' := heap - multiset{c};
    forall s | Covered(heap, best, s) ensures Covered(heap', best, s) {
      CoveredAfterPop(heap, best, best, c, s);
    }
    forall h | h in heap' ensures h in heap {
    }
  }

  /** A minimal entry with a new key is finalized at the least cost of any path to its key. */
  lemma PopNewOpt(grid: seq<seq<int>>, minConsec: int, maxConsec: int,
                  heap: multiset<Crucible>, best: map<Key, int>, c: Crucible)
    requires IsGrid(grid)
    requires InvOpt(grid, minConsec, maxConsec, best) && InvCover(grid, minConsec, maxConsec, heap, best)
    requires c in heap && KeyOf(c) !in best && IsMinOf(c, heap)
    ensures InvOpt(grid, minConsec, maxConsec, best[KeyOf(c) := c.heatLoss])
  {
    var best' := best[KeyOf(c) := c.heatLoss];
    forall p | IsPath(grid, minConsec, maxConsec, p) && KeyOf(Last(p)) in best'
      ensures best'[KeyOf(Last(p))] <= Last(p).heatLoss
    {
      if KeyOf(Last(p)) == KeyOf(c) {
        Frontier(grid, minConsec, maxConsec, heap, best, p);
      }
    }
  }

  /** The heap entries that stay or are pushed lie in the key space, at or above the popped cost. */
  lemma ExpandedHeapBounds(grid: seq<seq<int>>, minConsec: int, maxConsec: int,
                           heap: multiset<Crucible>, c: Crucible)
    requires IsGrid(grid) && 1 <= maxConsec
    requires forall h :: h in heap ==> InKeySpace(grid, maxConsec, h)
    requires c in heap && IsMinOf(c, heap)
    ensures forall h :: h in heap - multiset{c} + multiset(Successors(grid, minConsec, maxConsec, c)) ==>
      InKeySpace(grid, maxConsec, h) && c.heatLoss <= h.heatLoss
  {
    var succ := Successors(grid, minConsec, maxConsec, c);
    forall h | h in heap - multiset{c} + multiset(succ)
      ensures InKeySpace(grid, maxConsec, h) && c.heatLoss <= h.heatLoss
    {
      if h in succ {
        SuccessorRules(grid, minConsec, maxConsec, c, h);
      } else {
        assert h in heap;
      }
    }
  }

  lemma VisitInKeySpace(grid: seq<seq<int>>, maxConsec: int, vis: set<Key>, c: Crucible)
    requires IsGrid(grid) && vis <= KeySpace(grid, maxConsec) && InKeySpace(grid, maxConsec, c)
    ensures vis + {KeyOf(c)} <= KeySpace(grid, maxConsec)
  {
    KeyInKeySpace(grid, maxConsec, c);
  }

  lemma VisitKeepsLevels(grid: seq<seq<int>>, vis: set<Key>, best: map<Key, int>, c: Crucible, level: int)
    requires IsGrid(grid) && best.Keys == vis && KeyOf(c) !in vis
    requires level <= c.heatLoss && !AtTarget(grid, c.position)
    requires forall k :: k in vis ==> best[k] <= level && !AtTarget(grid, k.0)
    ensures best[KeyOf(c) := c.heatLoss].Keys == vis + {KeyOf(c)}
    ensures forall k :: k in vis + {KeyOf(c)} ==> best[KeyOf(c) := c.heatLoss][k] <= c.heatLoss && !AtTarget(grid, k.0)
  {
  }

  /** Expanding a popped entry with a new key keeps the bookkeeping. */
  lemma PopNewShape(grid: seq<seq<int>>, minConsec: int, maxConsec: int,
                    heap: multiset<Crucible>, vis: set<Key>, best: map<Key, int>, level: int, c: Crucible)
    requires IsGrid(grid) && 1 <= maxConsec
    requires InvShape(grid, maxConsec, heap, vis, best, level)
    requires c in heap && IsMinOf(c, heap) && KeyOf(c) !in vis && !AtTarget(grid, c.position)
    ensures InvShape(grid, maxConsec,
                     heap - multiset{c} + multiset(Successors(grid, minConsec, maxConsec, c)),
                     vis + {KeyOf(c)}, best[KeyOf(c) := c.heatLoss], c.heatLoss)
  {
    VisitInKeySpace(grid, maxConsec, vis, c);
    VisitKeepsLevels(grid, vis, best, c, level);
    ExpandedHeapBounds(grid, minConsec, maxConsec, heap, c);
  }

  /** Finalizing the popped entry `c` and pushing `more` keeps a covered state covered. */
  lemma CoveredAfterExpand(heap: multiset<Crucible>, more: multiset<Crucible>, best: map<Key, int>, c: Crucible, s: Crucible)
    requires Covered(heap, best, s) && c in heap && KeyOf(c) !in best
    ensures Covered(heap - multiset{c} + more, best[KeyOf(c) := c.heatLoss], s)
  {
    var best' := best[KeyOf(c) := c.heatLoss];
    CoveredAfterPop(heap, best, best', c, s);
    CoveredAfterPush(heap - multiset{c}, more, best', s);
  }

  /** Expanding a popped entry with a new key keeps every state covered. */
  lemma PopNewCover(grid: seq<seq<int>>, minConsec: int, maxConsec: int,
                    heap: multiset<Crucible>, best: map<Key, int>, c: Crucible)
    requires IsGrid(grid)
    requires InvCover(grid, minConsec, maxConsec, heap, best)
    requires c in heap && KeyOf(c) !in best
    ensures InvCover(grid, minConsec, maxConsec,
                     heap - multiset{c} + multiset(Successors(grid, minConsec, maxConsec, c)),
                     best[KeyOf(c) := c.heatLoss])
  {
    var k := KeyOf(c);
    var succ := Successors(grid, minConsec, maxConsec, c);
    var heap' := heap - multiset{c} + multiset(succ);
    var best' := best[k := c.heatLoss];
    CoveredAfterExpand(heap, multiset(succ), best, c, Seed(Right));
    CoveredAfterExpand(heap, multiset(succ), best, c, Seed(Down));
    forall k0, s | k0 in best' && IsSuccessor(grid, minConsec, maxConsec, Finalized(k0, best'[k0]), s)
      ensures Covered(heap', best', s)
    {
      if k0 != k {
        CoveredAfterExpand(heap, multiset(succ), best, c, s);
      } else {
        assert Finalized(k, best'[k]) == c;
        assert s in succ;
        assert s in heap';
      }
    }
  }

  /**
   * One expansion step keeps the whole invariant: the popped entry `c`, of
   * least cost and with a key not yet visited, is finalized and its
   * successors are pushed, each with its witness path.
   */
  lemma PopNew(grid: seq<seq<int>>, minConsec: int, maxConsec: int,
               heap: multiset<Crucible>, vis: set<Key>, best: map<Key, int>,
               level: int, wit: map<Crucible, seq<Crucible>>, c: Crucible)
    requires IsGrid(grid) && 1 <= maxConsec
    requires InvShape(grid, maxConsec, heap, vis, best, level)
    requires InvWit(grid, minConsec, maxConsec, heap, wit)
    requires InvOpt(grid, minConsec, maxConsec, best)
    requires InvCover(grid, minConsec, maxConsec, heap, best)
    requires c in heap && IsMinOf(c, heap) && KeyOf(c) !in vis && !AtTarget(grid, c.position)
    ensures KeyOf(c) in KeySpace(grid, maxConsec)
    ensures var succ := Successors(grid, minConsec, maxConsec, c);
            var heap' := heap - multiset{c} + multiset(succ);
            var best' := best[KeyOf(c) := c.heatLoss];
            && InvShape(grid, maxConsec, heap', vis + {KeyOf(c)}, best', c.heatLoss)
            && InvWit(grid, minConsec, maxConsec, heap', ExtendWitnesses(wit, wit[c], succ))
            && InvOpt(grid, minConsec, maxConsec, best')
            && InvCover(grid, minConsec, maxConsec, heap', best')
  {
    KeyInKeySpace(grid, maxConsec, c);
    PopNewOpt(grid, minConsec, maxConsec, heap, best, c);
    PopNewShape(grid, minConsec, maxConsec, heap, vis, best, level, c);
    PopNewCover(grid, minConsec, maxConsec, heap, best, c);
    var popped := heap - multiset{c};
    assert InvWit(grid, minConsec, maxConsec, popped, wit) by {
      forall h | h in popped ensures h in heap { }
    }
    WitAfterPush(grid, minConsec, maxConsec, popped, wit, c);
  }

  /** A least entry at the target costs no more than any path to the target. */
  lemma TargetIsOptimal(grid: seq<seq<int>>, minConsec: int, maxConsec: int,
                        heap: multiset<Crucible>, best: map<Key, int>, c: Crucible)
    requires IsGrid(grid)
    requires InvOpt(grid, minConsec, maxConsec, best) && InvCover(grid, minConsec, maxConsec, heap, best)
    requires forall k :: k in best ==> !AtTarget(grid, k.0)
    requires c in heap && IsMinOf(c, heap)
    ensures forall p :: Reaches(grid, minConsec, maxConsec, p) ==> c.heatLoss <= Last(p).heatLoss
  {
    forall p | Reaches(grid, minConsec, maxConsec, p) ensures c.heatLoss <= Last(p).heatLoss {
      Frontier(grid, minConsec, maxConsec, heap, best, p);
    }
  }

  /** Once the heap is empty no path reaches the target. */
  lemma ExhaustedUnreachable(grid: seq<seq<int>>, minConsec: int, maxConsec: int, best: map<Key, int>)
    requires IsGrid(grid)
    requires InvOpt(grid, minConsec, maxConsec, best) && InvCover(grid, minConsec, maxConsec, multiset{}, best)
    requires forall k :: k in best ==> !AtTarget(grid, k.0)
    ensures forall p :: !Reaches(grid, minConsec, maxConsec, p)
  {
    forall p | Reaches(grid, minConsec, maxConsec, p) ensures false {
      Frontier(grid, minConsec, maxConsec, multiset{}, best, p);
    }
  }

  /**
   * The answer `iterate_grid` promises: -1 when no legal path reaches the
   * bottom-right cell, otherwise the heat loss of some legal path there that
   * is no more than that of any other.
   */
  ghost predicate IsLeastHeat(grid: seq<seq<int>>, minConsec: int, maxConsec: int, heat: int)
    requires IsGrid(grid)
  {
    if heat == -1 then
      forall p :: !Reaches(grid, minConsec, maxConsec, p)
    else
      && (exists p :: Reaches(grid, minConsec, maxConsec, p) && Last(p).heatLoss == heat)
      && (forall p :: Reaches(grid, minConsec, maxConsec, p) ==> heat <= Last(p).heatLoss)
  }

  /**
   * The inner loop of `iterate_grid`: for each direction of `consider_dirs`
   * that stays on the grid, push the moved crucible.
   */
  method PushMoves(grid: seq<seq<int>>, crucible: Crucible, considerDirs: seq<Direction>,
                   heap: multiset<Crucible>)
    returns (heap': multiset<Crucible>)
    requires IsGrid(grid)
    ensures heap' == heap + multiset(Expand(grid, crucible, considerDirs))
  {
    var m, n := |grid|, |grid[0]|;
    var x, y := crucible.position.x, crucible.position.y;
    heap' := heap;
    ghost var pushed: seq<Crucible> := [];
    for i := 0 to |considerDirs|
      invariant pushed == Expand(grid, crucible, considerDirs[..i])
      invariant heap' == heap + multiset(pushed)
    {
      var dir := considerDirs[i];
      var delta := Delta(dir);
      var nx, ny := x + delta.0, y + delta.1;
      ExpandPrefix(grid, crucible, considerDirs, i);
      if 0 <= nx < m && 0 <= ny < n {
        var cruc := Step(grid, crucible, dir);
        heap' := heap' + multiset{cruc};
        pushed := pushed + [cruc];
      }
    }
    assert considerDirs[..|considerDirs|] == considerDirs;
  }

  lemma ExpandPrefix(grid: seq<seq<int>>, c: Crucible, dirs: seq<Direction>, i: int)
    requires IsGrid(grid) && 0 <= i < |dirs|
    ensures Expand(grid, c, dirs[..i + 1]) ==
      Expand(grid, c, dirs[..i]) + (if CanMove(grid, c, dirs[i]) then [Step(grid, c, dirs[i])] else [])
  {
    assert dirs[..i + 1] == dirs[..i] + [dirs[i]];
    ExpandSnoc(grid, c, dirs[..i], dirs[i]);
  }

  lemma ExpandSnoc(grid: seq<seq<int>>, c: Crucible, dirs: seq<Direction>, d: Direction)
    requires IsGrid(grid)
    ensures Expand(grid, c, dirs + [d]) ==
      Expand(grid, c, dirs) + (if CanMove(grid, c, d) then [Step(grid, c, d)] else [])
  {
    assert (dirs + [d])[..|dirs|] == dirs;
  }

  /** Witness paths for the pushed successors: the popped entry's path, one step longer. */
  ghost function ExtendWitnesses(wit: map<Crucible, seq<Crucible>>, path: seq<Crucible>, succ: seq<Crucible>)
    : map<Crucible, seq<Crucible>>
  {
    wit + map s | s in succ :: path + [s]
  }

  lemma WitAfterPush(grid: seq<seq<int>>, minConsec: int, maxConsec: int,
                     heap: multiset<Crucible>, wit: map<Crucible, seq<Crucible>>, c: Crucible)
    requires IsGrid(grid)
    requires InvWit(grid, minConsec, maxConsec, heap, wit)
    requires c in wit && IsPath(grid, minConsec, maxConsec, wit[c]) && Last(wit[c]) == c
    ensures InvWit(grid, minConsec, maxConsec,
                   heap + multiset(Successors(grid, minConsec, maxConsec, c)),
                   ExtendWitnesses(wit, wit[c], Successors(grid, minConsec, maxConsec, c)))
  {
    var succ := Successors(grid, minConsec, maxConsec, c);
    var wit' := ExtendWitnesses(wit, wit[c], succ);
    forall h | h in heap + multiset(succ)
      ensures h in wit' && IsPath(grid, minConsec, maxConsec, wit'[h]) && Last(wit'[h]) == h
    {
      if h in succ {
        PathExtend(grid, minConsec, maxConsec, wit[c], h);
      }
    }
  }

  /**
   * `iterate_grid`: pops the cheapest crucible, skips keys already visited,
   * returns the heat loss of the first crucible popped at the bottom-right
   * cell, and otherwise pushes its successors; -1 once the heap is empty.
   */
  method IterateGrid(grid: seq<seq<int>>, minConsec: int, maxConsec: int) returns (heat: int)
    requires IsGrid(grid) && 1 <= maxConsec
    ensures IsLeastHeat(grid, minConsec, maxConsec, heat)
  {
    var m, n := |grid|, |grid[0]|;
    var heap: multiset<Crucible> := multiset{};
    var vis: set<Key> := {};
    ghost var best: map<Key, int> := map[];
    ghost var level := 0;
    ghost var wit: map<Crucible, seq<Crucible>> := map[];

    // the two seeds, facing Right and Down
    heap := heap + multiset{Seed(Right)} + multiset{Seed(Down)};
    wit := wit[Seed(Right) := [Seed(Right)]][Seed(Down) := [Seed(Down)]];
    assert InvWit(grid, minConsec, maxConsec, heap, wit) by {
      forall h | h in heap ensures h in wit && IsPath(grid, minConsec, maxConsec, wit[h]) && Last(wit[h]) == h {
        assert h == Seed(Right) || h == Seed(Down);
      }
    }

    while heap != multiset{}
      invariant InvShape(grid, maxConsec, heap, vis, best, level)
      invariant InvWit(grid, minConsec, maxConsec, heap, wit)
      invariant InvOpt(grid, minConsec, maxConsec, best)
      invariant InvCover(grid, minConsec, maxConsec, heap, best)
      decreases KeySpace(grid, maxConsec) - vis, |heap|
    {
      MinExists(heap);
      var crucible :| crucible in heap && IsMinOf(crucible, heap);
      var x, y := crucible.position.x, crucible.position.y;
      var curDir, curSameDirTimes := crucible.position.dir, crucible.sameDirTimes;

      var visKey := KeyOf(crucible);
      if visKey in vis {
        PopStale(grid, minConsec, maxConsec, heap, vis, best, level, crucible);
        heap := heap - multiset{crucible};
        continue;
      }

      if x == m - 1 && y == n - 1 {
        TargetIsOptimal(grid, minConsec, maxConsec, heap, best, crucible);
        assert Reaches(grid, minConsec, maxConsec, wit[crucible]);
        return crucible.heatLoss;
      }

      PopNew(grid, minConsec, maxConsec, heap, vis, best, level, wit, crucible);
      ghost var succ := Successors(grid, minConsec, maxConsec, crucible);
      wit := ExtendWitnesses(wit, wit[crucible], succ);
      heap := heap - multiset{crucible};
      vis := vis + {visKey};
      best := best[visKey := crucible.heatLoss];
      level := crucible.heatLoss;

      var considerDirs := ConsiderDirs(curDir, curSameDirTimes, minConsec, maxConsec);
      heap := PushMoves(grid, crucible, considerDirs, heap);
    }
    ExhaustedUnreachable(grid, minConsec, maxConsec, best);
    return -1;
  }

  /**
   * `p1` and `p2`: parse the grid and search with the given run limits;
   * `None` when a cell is not a digit, when there is no row, or when a row
   * is shorter than the first (the search would index past its end).
   */
  method Solve(lines: seq<string>, minConsec: int, maxConsec: int) returns (r: Option<int>)
    requires 1 <= maxConsec
    ensures r.Some? <==> ParseLines(lines).Some? && IsGrid(ParseLines(lines).value)
    ensures r.Some? ==>
      IsGrid(ParseLines(lines).value) && IsLeastHeat(ParseLines(lines).value, minConsec, maxConsec, r.value)
  {
    var grid := ParseLines(lines);
    if grid.None? || !IsGrid(grid.value) {
      return None;
    }
    var heat := IterateGrid(grid.value, minConsec, maxConsec);
    return Some(heat);
  }

  /** `p1`: at most three moves in a row, no minimum run. */
  method P1(lines: seq<string>) returns (r: Option<int>)
    ensures r.Some? <==> ParseLines(lines).Some? && IsGrid(ParseLines(lines).value)
    ensures r.Some? ==> IsGrid(ParseLines(lines).value) && IsLeastHeat(ParseLines(lines).value, 0, 3, r.value)
  {
    r := Solve(lines, 0, 3);
  }

  /** `p2`: at least four and at most ten moves in a row before turning. */
  method P2(lines: seq<string>) returns (r: Option<int>)
    ensures r.Some? <==> ParseLines(lines).Some? && IsGrid(ParseLines(lines).value)
    ensures r.Some? ==> IsGrid(ParseLines(lines).value) && IsLeastHeat(ParseLines(lines).value, 4, 10, r.value)
  {
    r := Solve(lines, 4, 10);
  }
}
