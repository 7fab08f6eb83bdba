/**
 * Day 11: cosmic expansion. Every row and column of the image without a
 * galaxy ('#') is replaced by `k` of them; the answer is the sum of the
 * Manhattan distances between all pairs of galaxies after the expansion
 * (k = 2 in part 1, k = 1000000 in part 2).
 */
module D11 {
  import opened Wrappers

  type Pos = (nat, nat)

  predicate AllDots(row: string)
  {
    forall c :: c in row ==> c == '.'
  }

  predicate StrictlyIncreasing(s: seq<nat>)
  {
    forall a, b :: 0 <= a < b < |s| ==> s[a] < s[b]
  }

  /** The indices below n of the rows that are all '.', ascending. */
  function EmptyRowsBelow(rows: seq<string>, n: nat): (r: seq<nat>)
    requires n <= |rows|
    ensures StrictlyIncreasing(r)
    ensures forall i: nat :: i in r <==> i < n && AllDots(rows[i])
    ensures forall a :: 0 <= a < |r| ==> r[a] < n
  {
    if n == 0 then []
    else
      var init := EmptyRowsBelow(rows, n - 1);
      if AllDots(rows[n - 1]) then init + [n - 1] else init
  }

  /**
   * Whether column j is all '.', reading the rows in order and stopping at
   * the first other character; a row too short to have column j first is a panic.
   */
  function ColumnEmpty(rows: seq<string>, j: nat): (r: Option<bool>)
    ensures r == Some(true) ==> forall i :: 0 <= i < |rows| ==> j < |rows[i]| && rows[i][j] == '.'
    ensures (forall i :: 0 <= i < |rows| ==> j < |rows[i]|) ==>
      r == Some(forall i :: 0 <= i < |rows| ==> rows[i][j] == '.')
  {
    if rows == [] then Some(true)
    else if j >= |rows[0]| then None
    else if rows[0][j] != '.' then Some(false)
    else
      assert forall i :: 0 < i < |rows| ==> rows[i] == rows[1..][i - 1];
      ColumnEmpty(rows[1..], j)
  }

  /** The empty columns below n, ascending; None when a column check panics. */
  function EmptyColsBelow(rows: seq<string>, n: nat): (r: Option<seq<nat>>)
    ensures r.Some? ==> StrictlyIncreasing(r.value)
    ensures r.Some? ==> forall j: nat :: j in r.value <==> j < n && ColumnEmpty(rows, j) == Some(true)
    ensures r.Some? ==> forall a :: 0 <= a < |r.value| ==> r.value[a] < n
    ensures r.None? <==> exists j :: 0 <= j < n && ColumnEmpty(rows, j).None?
  {
    if n == 0 then Some([])
    else
      var init := EmptyColsBelow(rows, n - 1);
      var empty := ColumnEmpty(rows, n - 1);
      if empty.None? then
        assert 0 <= n - 1 < n && ColumnEmpty(rows, n - 1).None?;
        None
      else if init.None? then
        var j :| 0 <= j < n - 1 && ColumnEmpty(rows, j).None?;
        assert 0 <= j < n && ColumnEmpty(rows, j).None?;
        assert exists j' :: 0 <= j' < n && ColumnEmpty(rows, j').None?;
        None
      else if empty.value then Some(init.value + [n - 1])
      else init
  }

  /** `get_all_empty_rows_cols`; the columns are those of the first row, which must exist. */
  function EmptyRowsCols(rows: seq<string>): Option<(seq<nat>, seq<nat>)>
  {
    if rows == [] then None
    else match EmptyColsBelow(rows, |rows[0]|)
      case None => None
      case Some(cols) => Some((EmptyRowsBelow(rows, |rows|), cols))
  }

  /** `get_all_empty_rows_cols`: the empty rows, then the empty columns of the first row's width. */
  method GetAllEmptyRowsCols(rows: seq<string>) returns (r: Option<(seq<nat>, seq<nat>)>)
    ensures r == EmptyRowsCols(rows)
  {
    var emptyRows := EmptyRowsLoop(rows);
    if rows == [] {
      return None;
    }
    var emptyCols := EmptyColsLoop(rows, |rows[0]|);
    if emptyCols.None? {
      return None;
    }
    return Some((emptyRows, emptyCols.value));
  }

  /** The row loop: rows made of '.' only, in order. */
  method EmptyRowsLoop(rows: seq<string>) returns (emptyRows: seq<nat>)
    ensures emptyRows == EmptyRowsBelow(rows, |rows|)
  {
    emptyRows := [];
    for i := 0 to |rows|
      invariant emptyRows == EmptyRowsBelow(rows, i)
    {
      if forall c :: c in rows[i] ==> c == '.' {
        emptyRows := emptyRows + [i];
      }
    }
  }

  /** The column loop over columns 0 .. n-1; a row too short for a column is a panic. */
  method EmptyColsLoop(rows: seq<string>, n: nat) returns (r: Option<seq<nat>>)
    ensures r == EmptyColsBelow(rows, n)
  {
    var emptyCols: seq<nat> := [];
    for j := 0 to n
      invariant EmptyColsBelow(rows, j) == Some(emptyCols)
    {
      var empty := ColumnEmpty(rows, j);
      if empty.None? {
        EmptyColsFail(rows, j, n);
        return None;
      }
      if empty.value {
        emptyCols := emptyCols + [j];
      }
    }
    return Some(emptyCols);
  }

  lemma EmptyColsFail(rows: seq<string>, j: nat, n: nat)
    requires j < n && ColumnEmpty(rows, j).None?
    ensures EmptyColsBelow(rows, n).None?
  {
  }

  // ---------------------------------------------------------------------
  // Galaxies and their expansion
  // ---------------------------------------------------------------------

  /** The number of entries of e below x. */
  function CountBelow(e: seq<nat>, x: nat): (c: nat)
    ensures c <= |e|
  {
    if e == [] then 0 else CountBelow(e[..|e| - 1], x) + (if e[|e| - 1] < x then 1 else 0)
  }

  lemma {:induction false} CountBelowMonotone(e: seq<nat>, x: nat, y: nat)
    requires x <= y
    ensures CountBelow(e, x) <= CountBelow(e, y)
  {
    if e != [] {
      CountBelowMonotone(e[..|e| - 1], x, y);
    }
  }

  /** A coordinate after expansion: each empty line before it counts k times instead of once. */
  function Expand(x: nat, k: nat, empties: seq<nat>): nat
    requires k >= 1
  {
    x + (k - 1) * CountBelow(empties, x)
  }

  /** Expansion keeps coordinates in order, strictly, and k = 1 changes nothing. */
  lemma ExpandOrder(x: nat, y: nat, k: nat, empties: seq<nat>)
    requires k >= 1
    ensures x < y ==> Expand(x, k, empties) < Expand(y, k, empties)
    ensures Expand(x, 1, empties) == x
  {
    if x < y {
      CountBelowMonotone(empties, x, y);
      assert (k - 1) * CountBelow(empties, x) <= (k - 1) * CountBelow(empties, y);
    }
  }

  /** The galaxies of row i among its first m characters, left to right. */
  function RowGalaxies(row: string, i: nat, m: nat): seq<Pos>
    requires m <= |row|
  {
    if m == 0 then []
    else
      var init := RowGalaxies(row, i, m - 1);
      if row[m - 1] == '#' then init + [(i, m - 1)] else init
  }

  /** A row's galaxy list holds exactly its '#' positions, left to right. */
  lemma {:induction false} RowGalaxiesSpec(row: string, i: nat, m: nat)
    requires m <= |row|
    ensures forall a :: 0 <= a < |RowGalaxies(row, i, m)| ==>
      RowGalaxies(row, i, m)[a].0 == i && RowGalaxies(row, i, m)[a].1 < m && row[RowGalaxies(row, i, m)[a].1] == '#'
    ensures forall j :: 0 <= j < m && row[j] == '#' ==> (i, j) in RowGalaxies(row, i, m)
    ensures forall a, b :: 0 <= a < b < |RowGalaxies(row, i, m)| ==> RowGalaxies(row, i, m)[a].1 < RowGalaxies(row, i, m)[b].1
  {
    if m > 0 {
      RowGalaxiesSpec(row, i, m - 1);
    }
  }

  /** The galaxies of the first n rows, in row-major order. */
  function GalaxiesOf(rows: seq<string>, n: nat): seq<Pos>
    requires n <= |rows|
  {
    if n == 0 then []
    else GalaxiesOf(rows, n - 1) + RowGalaxies(rows[n - 1], n - 1, |rows[n - 1]|)
  }

  /** Position p is a '#' of the first n rows. */
  predicate GalaxyAt(rows: seq<string>, n: nat, p: Pos)
    requires n <= |rows|
  {
    p.0 < n && p.1 < |rows[p.0]| && rows[p.0][p.1] == '#'
  }

  predicate RowMajor(p: Pos, q: Pos)
  {
    p.0 < q.0 || (p.0 == q.0 && p.1 < q.1)
  }

  /** The galaxy list holds exactly the '#' positions, in row-major order. */
  lemma {:induction false} GalaxiesOfSpec(rows: seq<string>, n: nat)
    requires n <= |rows|
    ensures forall a :: 0 <= a < |GalaxiesOf(rows, n)| ==> GalaxyAt(rows, n, GalaxiesOf(rows, n)[a])
    ensures forall i, j :: 0 <= i < n && 0 <= j < |rows[i]| && rows[i][j] == '#' ==> (i, j) in GalaxiesOf(rows, n)
    ensures forall a, b :: 0 <= a < b < |GalaxiesOf(rows, n)| ==> RowMajor(GalaxiesOf(rows, n)[a], GalaxiesOf(rows, n)[b])
  {
    if n > 0 {
      GalaxiesOfSpec(rows, n - 1);
      RowGalaxiesSpec(rows[n - 1], n - 1, |rows[n - 1]|);
      var init := GalaxiesOf(rows, n - 1);
      var row := RowGalaxies(rows[n - 1], n - 1, |rows[n - 1]|);
      var r := GalaxiesOf(rows, n);
      assert r == init + row;
      forall a | 0 <= a < |r|
        ensures GalaxyAt(rows, n, r[a])
      {
        if a >= |init| {
          var q := row[a - |init|];
          assert r[a] == q;
          assert 0 <= a - |init| < |row|;
          assert q.0 == n - 1 && q.1 < |rows[n - 1]| && rows[n - 1][q.1] == '#';
        } else {
          assert r[a] == init[a];
        }
      }
      forall i, j | 0 <= i < n && 0 <= j < |rows[i]| && rows[i][j] == '#'
        ensures (i, j) in r
      {
        if i < n - 1 {
          assert (i, j) in init;
        } else {
          assert (i, j) in row;
        }
      }
      forall a, b | 0 <= a < b < |r|
        ensures RowMajor(r[a], r[b])
      {
        if b >= |init| && a >= |init| {
          assert r[a] == row[a - |init|] && r[b] == row[b - |init|];
        } else if b >= |init| {
          assert r[a] == init[a] && r[b] == row[b - |init|];
        } else {
          assert r[a] == init[a] && r[b] == init[b];
        }
      }
    }
  }

  /** Each galaxy moved by the expansion of rows and columns. */
  function Shifted(gal: seq<Pos>, k: nat, emptyRows: seq<nat>, emptyCols: seq<nat>): (r: seq<Pos>)
    requires k >= 1
    ensures |r| == |gal|
    ensures forall a :: 0 <= a < |gal| ==>
      r[a] == (Expand(gal[a].0, k, emptyRows), Expand(gal[a].1, k, emptyCols))
  {
    if gal == [] then []
    else
      Shifted(gal[..|gal| - 1], k, emptyRows, emptyCols)
        + [(Expand(gal[|gal| - 1].0, k, emptyRows), Expand(gal[|gal| - 1].1, k, emptyCols))]
  }

  /** `get_all_galaxies`: the expanded galaxies in row-major order; None when the empty-line scan panics. */
  function Galaxies(rows: seq<string>, k: nat): Option<seq<Pos>>
    requires k >= 1
  {
    match EmptyRowsCols(rows)
    case None => None
    case Some((er, ec)) => Some(Shifted(GalaxiesOf(rows, |rows|), k, er, ec))
  }

  /** Expansion keeps the row-major order of the galaxies. */
  lemma ShiftedKeepsOrder(rows: seq<string>, k: nat, a: nat, b: nat)
    requires k >= 1 && Galaxies(rows, k).Some? && a < b < |Galaxies(rows, k).value|
    ensures RowMajor(Galaxies(rows, k).value[a], Galaxies(rows, k).value[b])
  {
    var (er, ec) := EmptyRowsCols(rows).value;
    var raw := GalaxiesOf(rows, |rows|);
    GalaxiesOfSpec(rows, |rows|);
    ExpandOrder(raw[a].0, raw[b].0, k, er);
    ExpandOrder(raw[a].1, raw[b].1, k, ec);
  }

  /** One row of the galaxy loop: the row's galaxies, shifted. */
  method ScanRow(row: string, i: nat, k: nat, er: seq<nat>, ec: seq<nat>, galaxies0: seq<Pos>) returns (galaxies: seq<Pos>)
    requires k >= 1
    ensures galaxies == galaxies0 + Shifted(RowGalaxies(row, i, |row|), k, er, ec)
  {
    galaxies := galaxies0;
    for j := 0 to |row|
      invariant galaxies == galaxies0 + Shifted(RowGalaxies(row, i, j), k, er, ec)
    {
      if row[j] == '#' {
        var shiftedI := i + (k - 1) * CountBelow(er, i);
        var shiftedJ := j + (k - 1) * CountBelow(ec, j);
        ShiftedSnoc(RowGalaxies(row, i, j), (i, j), k, er, ec);
        galaxies := galaxies + [(shiftedI, shiftedJ)];
      }
    }
  }

  lemma ShiftedSnoc(gal: seq<Pos>, p: Pos, k: nat, er: seq<nat>, ec: seq<nat>)
    requires k >= 1
    ensures Shifted(gal + [p], k, er, ec) == Shifted(gal, k, er, ec) + [(Expand(p.0, k, er), Expand(p.1, k, ec))]
  {
    assert (gal + [p])[..|gal|] == gal;
  }

  lemma {:induction false} ShiftedAppend(a: seq<Pos>, b: seq<Pos>, k: nat, er: seq<nat>, ec: seq<nat>)
    requires k >= 1
    ensures Shifted(a + b, k, er, ec) == Shifted(a, k, er, ec) + Shifted(b, k, er, ec)
  {
    if b != [] {
      var b0 := b[..|b| - 1];
      ShiftedAppend(a, b0, k, er, ec);
      assert (a + b)[..|a + b| - 1] == a + b0;
      assert b[..|b| - 1] == b0;
    } else {
      assert a + b == a;
    }
  }

  method GetAllGalaxies(rows: seq<string>, k: nat) returns (r: Option<seq<Pos>>)
    requires k >= 1
    ensures r == Galaxies(rows, k)
  {
    var emptyRC := GetAllEmptyRowsCols(rows);
    if emptyRC.None? {
      return None;
    }
    var (er, ec) := emptyRC.value;
    var galaxies: seq<Pos> := [];
    for i := 0 to |rows|
      invariant galaxies == Shifted(GalaxiesOf(rows, i), k, er, ec)
    {
      galaxies := ScanRow(rows[i], i, k, er, ec, galaxies);
      ShiftedAppend(GalaxiesOf(rows, i), RowGalaxies(rows[i], i, |rows[i]|), k, er, ec);
    }
    return Some(galaxies);
  }

  // ---------------------------------------------------------------------
  // Pairwise distances
  // ---------------------------------------------------------------------

  function AbsDiff(a: nat, b: nat): nat
  {
    if a < b then b - a else a - b
  }

  function Dist(p: Pos, q: Pos): nat
  {
    AbsDiff(p.0, q.0) + AbsDiff(p.1, q.1)
  }

  /** The distances from galaxy i to galaxies i+1 .. j-1. */
  function RowSum(gal: seq<Pos>, i: nat, j: nat): nat
    requires i < |gal| && j <= |gal|
  {
    if j <= i + 1 then 0 else RowSum(gal, i, j - 1) + Dist(gal[i], gal[j - 1])
  }

  /** The distances of all pairs whose first galaxy is below n. */
  function PairSum(gal: seq<Pos>, n: nat): nat
    requires n <= |gal|
  {
    if n == 0 then 0 else PairSum(gal, n - 1) + RowSum(gal, n - 1, |gal|)
  }

  /** The number of pairs whose first galaxy is below i. */
  function PairsBelow(g: nat, i: nat): nat
    requires i <= g
  {
    if i == 0 then 0 else PairsBelow(g, i - 1) + (g - i)
  }

  lemma {:induction false} PairsBelowValue(g: nat, i: nat)
    requires i <= g
    ensures 2 * PairsBelow(g, i) == i * (2 * g - 1 - i)
  {
    if i > 0 {
      PairsBelowValue(g, i - 1);
    }
  }

  /** The pairs of g galaxies: g(g-1)/2. */
  lemma AllPairsCount(g: nat)
    ensures 2 * PairsBelow(g, g) == g * (g - 1)
  {
    PairsBelowValue(g, g);
  }

  /** The sum of the values of a distance map, in any order. */
  ghost function ValueSum(m: map<Pos, nat>): nat
    decreases |m|
  {
    if m == map[] then 0
    else
      HasKey(m);
      var p :| p in m;
      m[p] + ValueSum(m - {p})
  }

  lemma HasKey(m: map<Pos, nat>)
    ensures m == map[] || exists p :: p in m
  {
    if forall p :: p !in m {
      assert m == map[];
    }
  }

  /** The sum does not depend on which key is taken out first. */
  lemma {:induction false} ValueSumRemove(m: map<Pos, nat>, q: Pos)
    requires q in m
    ensures ValueSum(m) == m[q] + ValueSum(m - {q})
    decreases |m|
  {
    HasKey(m);
    var p :| p in m && ValueSum(m) == m[p] + ValueSum(m - {p});
    if p != q {
      ValueSumRemove(m - {p}, q);
      ValueSumRemove(m - {q}, p);
      assert m - {p} - {q} == m - {q} - {p};
    }
  }

  lemma ValueSumInsert(m: map<Pos, nat>, q: Pos, v: nat)
    requires q !in m
    ensures ValueSum(m[q := v]) == ValueSum(m) + v
  {
    ValueSumRemove(m[q := v], q);
    assert m[q := v] - {q} == m;
  }

  /** The distance map holds pair (a, b), 1-based, for a below i, or a == i and b up to j. */
  ghost predicate DistancesSoFar(gal: seq<Pos>, m: map<Pos, nat>, i: nat, j: nat)
    requires i < |gal| || (i == |gal| && j == 0)
  {
    (forall a: nat, b: nat :: (a, b) in m <==> 1 <= a < b <= |gal| && (a - 1 < i || (a - 1 == i && b - 1 < j)))
    && (forall p :: p in m ==> 1 <= p.0 < p.1 <= |gal| && m[p] == Dist(gal[p.0 - 1], gal[p.1 - 1]))
  }

  /** Recording pair (i+1, j+1) extends the map by a fresh key. */
  lemma DistancesStep(gal: seq<Pos>, m: map<Pos, nat>, i: nat, j: nat)
    requires i < j < |gal| && DistancesSoFar(gal, m, i, j)
    ensures (i + 1, j + 1) !in m
    ensures DistancesSoFar(gal, m[(i + 1, j + 1) := Dist(gal[i], gal[j])], i, j + 1)
  {
  }

  /** Taking the last recorded pair of row i back out. */
  lemma DistancesUnstep(gal: seq<Pos>, m: map<Pos, nat>, i: nat, j: nat)
    requires i + 1 < j <= |gal| && DistancesSoFar(gal, m, i, j)
    ensures (i + 1, j) in m && m[(i + 1, j)] == Dist(gal[i], gal[j - 1])
    ensures DistancesSoFar(gal, m - {(i + 1, j)}, i, j - 1)
  {
  }

  /** Only the empty map holds no pair at all. */
  lemma NoPairs(gal: seq<Pos>, m: map<Pos, nat>)
    requires 0 < |gal| && DistancesSoFar(gal, m, 0, 1)
    ensures m == map[]
  {
    forall p: Pos
      ensures p !in m
    {
      assert p == (p.0, p.1) && ((p.0, p.1) in m <==> p in m);
    }
  }

  /** A map holding exactly the pairs below row i and those of row i up to j has one entry per pair. */
  lemma {:induction false} SoFarSize(gal: seq<Pos>, m: map<Pos, nat>, i: nat, j: nat)
    requires i < j <= |gal| && DistancesSoFar(gal, m, i, j)
    ensures |m| == PairsBelow(|gal|, i) + (j - 1 - i)
    decreases i, j
  {
    if j > i + 1 {
      DistancesUnstep(gal, m, i, j);
      SoFarSize(gal, m - {(i + 1, j)}, i, j - 1);
    } else if i > 0 {
      assert DistancesSoFar(gal, m, i - 1, |gal|);
      SoFarSize(gal, m, i - 1, |gal|);
    } else {
      NoPairs(gal, m);
    }
  }

  /** ... and its values add up to the distances of those pairs. */
  lemma {:induction false} SoFarSum(gal: seq<Pos>, m: map<Pos, nat>, i: nat, j: nat)
    requires i < j <= |gal| && DistancesSoFar(gal, m, i, j)
    ensures ValueSum(m) == PairSum(gal, i) + RowSum(gal, i, j)
    decreases i, j, 1
  {
    if j > i + 1 {
      SoFarSumPop(gal, m, i, j);
    } else if i > 0 {
      SoFarSumRow(gal, m, i, j);
    } else {
      NoPairs(gal, m);
      assert RowSum(gal, i, j) == 0 && PairSum(gal, i) == 0;
    }
  }

  /** The last pair of row i taken out: the rest sums to one distance less. */
  lemma {:induction false} SoFarSumPop(gal: seq<Pos>, m: map<Pos, nat>, i: nat, j: nat)
    requires i + 1 < j <= |gal| && DistancesSoFar(gal, m, i, j)
    ensures ValueSum(m) == PairSum(gal, i) + RowSum(gal, i, j)
    decreases i, j, 0
  {
    var q := (i + 1, j);
    var d := Dist(gal[i], gal[j - 1]);
    assert ValueSum(m - {q}) == PairSum(gal, i) + RowSum(gal, i, j - 1) by {
      DistancesUnstep(gal, m, i, j);
      SoFarSum(gal, m - {q}, i, j - 1);
    }
    assert ValueSum(m) == d + ValueSum(m - {q}) by {
      DistancesUnstep(gal, m, i, j);
      ValueSumRemove(m, q);
    }
    assert RowSum(gal, i, j) == RowSum(gal, i, j - 1) + d;
  }

  /** Row i empty so far: the map holds the complete rows below i. */
  lemma {:induction false} SoFarSumRow(gal: seq<Pos>, m: map<Pos, nat>, i: nat, j: nat)
    requires 0 < i && j == i + 1 <= |gal| && DistancesSoFar(gal, m, i, j)
    ensures ValueSum(m) == PairSum(gal, i) + RowSum(gal, i, j)
    decreases i, j, 0
  {
    assert DistancesSoFar(gal, m, i - 1, |gal|);
    SoFarSum(gal, m, i - 1, |gal|);
    assert RowSum(gal, i, j) == 0;
    assert PairSum(gal, i) == PairSum(gal, i - 1) + RowSum(gal, i - 1, |gal|);
  }

  /** The inner loop: the pairs (i+1, j+1) for j > i. */
  method AddRow(gal: seq<Pos>, i: nat, m0: map<Pos, nat>) returns (m: map<Pos, nat>)
    requires i < |gal| && DistancesSoFar(gal, m0, i, i + 1)
    ensures DistancesSoFar(gal, m, i, |gal|)
  {
    m := m0;
    for j := i + 1 to |gal|
      invariant DistancesSoFar(gal, m, i, j)
    {
      var galaxy1, galaxy2 := gal[i], gal[j];
      var distance := Dist(galaxy1, galaxy2);
      DistancesStep(gal, m, i, j);
      m := m[(i + 1, j + 1) := distance];
    }
  }

  lemma NextRow(gal: seq<Pos>, m: map<Pos, nat>, i: nat)
    requires i < |gal| && DistancesSoFar(gal, m, i, |gal|)
    ensures i + 1 < |gal| ==> DistancesSoFar(gal, m, i + 1, i + 2)
    ensures i + 1 == |gal| ==> DistancesSoFar(gal, m, i + 1, 0)
  {
  }

  /**
   * `get_all_pairwise_distances`: one entry per pair of galaxies, keyed by
   * their 1-based positions, g(g-1)/2 of them; the values sum to all pair distances.
   */
  method GetAllPairwiseDistances(gal: seq<Pos>) returns (m: map<Pos, nat>)
    ensures forall a: nat, b: nat :: (a, b) in m <==> 1 <= a < b <= |gal|
    ensures forall p :: p in m ==> 1 <= p.0 < p.1 <= |gal| && m[p] == Dist(gal[p.0 - 1], gal[p.1 - 1])
    ensures 2 * |m| == |gal| * (|gal| - 1)
    ensures ValueSum(m) == PairSum(gal, |gal|)
  {
    m := map[];
    if gal == [] {
      return;
    }
    for i := 0 to |gal|
      invariant DistancesSoFar(gal, m, i, if i < |gal| then i + 1 else 0)
    {
      m := AddRow(gal, i, m);
      NextRow(gal, m, i);
    }
    var last := |gal| - 1;
    assert DistancesSoFar(gal, m, last, |gal|);
    SoFarSize(gal, m, last, |gal|);
    SoFarSum(gal, m, last, |gal|);
    AllPairsCount(|gal|);
  }

  /** `.values().sum()`: the distances added up in the map's own order. */
  method SumValues(m: map<Pos, nat>) returns (total: nat)
    ensures total == ValueSum(m)
  {
    total := 0;
    var left := m;
    while left != map[]
      invariant total + ValueSum(left) == ValueSum(m)
      decreases |left|
    {
      HasKey(left);
      var p :| p in left;
      ValueSumRemove(left, p);
      total := total + left[p];
      left := left - {p};
    }
  }

  /** Both parts: the sum of the pair distances after expanding by k; None when the scan panics. */
  method Solve(lines: seq<string>, k: nat) returns (r: Option<nat>)
    requires k >= 1
    ensures r.None? <==> Galaxies(lines, k).None?
    ensures r.Some? ==> r.value == PairSum(Galaxies(lines, k).value, |Galaxies(lines, k).value|)
  {
    var galaxies := GetAllGalaxies(lines, k);
    if galaxies.None? {
      return None;
    }
    var distances := GetAllPairwiseDistances(galaxies.value);
    var total := SumValues(distances);
    return Some(total);
  }

  method P1(lines: seq<string>) returns (r: Option<nat>)
    ensures r.None? <==> Galaxies(lines, 2).None?
    ensures Galaxies(lines, 2).Some? ==> r == Some(PairSum(Galaxies(lines, 2).value, |Galaxies(lines, 2).value|))
  {
    r := Solve(lines, 2);
  }

  method P2(lines: seq<string>) returns (r: Option<nat>)
    ensures r.None? <==> Galaxies(lines, 1000000).None?
    ensures Galaxies(lines, 1000000).Some? ==> r == Some(PairSum(Galaxies(lines, 1000000).value, |Galaxies(lines, 1000000).value|))
  {
    r := Solve(lines, 1000000);
  }
}
