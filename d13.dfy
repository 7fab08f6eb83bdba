/**
 * Day 13: points of incidence. The input is a list of patterns of '.' and
 * '#' separated by blank lines. A pattern has a mirror between rows c and
 * c + 1 (1-based) when every pair of rows at equal distance from that line,
 * as far as both exist, is equal; the same for columns. Part 1 looks for
 * perfect mirrors, part 2 for mirrors that need exactly one cell fixed.
 *
 * The program finds mirrors indirectly: it lists the pairs of rows (and of
 * columns) that differ in 0 (or 1) places, then walks inwards from every
 * such pair that touches the first or the last row, one pair at a time,
 * and records the row where the walk meets the middle. `Mirrors` below
 * proves that this finds exactly the mirrors.
 */
module D13 {
  import opened Wrappers

  /** A pair of 1-based line numbers, the first below the second. */
  type Pair = (nat, nat)

  // ---------------------------------------------------------------------
  // Splitting the input into patterns
  // ---------------------------------------------------------------------

  /** `parse_lines`: the lines between blank lines, the last group included even when empty. */
  function Groups(lines: seq<string>): (r: seq<seq<string>>)
    ensures |r| >= 1
  {
    if lines == [] then [[]]
    else
      var g := Groups(lines[..|lines| - 1]);
      var line := lines[|lines| - 1];
      if line == "" then g + [[]]
      else g[..|g| - 1] + [g[|g| - 1] + [line]]
  }

  /** The groups put back together with one blank line between neighbours. */
  function JoinGroups(gs: seq<seq<string>>): seq<string>
    requires |gs| >= 1
  {
    if |gs| == 1 then gs[0]
    else JoinGroups(gs[..|gs| - 1]) + [""] + gs[|gs| - 1]
  }

  /** Grouping loses no line: joining the groups gives the input back. */
  lemma {:induction false} GroupsJoin(lines: seq<string>)
    ensures JoinGroups(Groups(lines)) == lines
  {
    if lines != [] {
      var init := lines[..|lines| - 1];
      var line := lines[|lines| - 1];
      GroupsJoin(init);
      assert lines == init + [line];
      if line != "" {
        JoinExtendLast(Groups(init), line);
      } else {
        assert JoinGroups(Groups(init) + [[]]) == JoinGroups(Groups(init)) + [""];
      }
    }
  }

  /** Adding a line to the last group adds it to the end of the joined lines. */
  lemma JoinExtendLast(gs: seq<seq<string>>, line: string)
    requires |gs| >= 1
    ensures JoinGroups(gs[..|gs| - 1] + [gs[|gs| - 1] + [line]]) == JoinGroups(gs) + [line]
  {
    var r := gs[..|gs| - 1] + [gs[|gs| - 1] + [line]];
    assert r[..|r| - 1] == gs[..|gs| - 1];
  }

  /** No group holds a blank line. */
  lemma {:induction false} GroupsNoBlank(lines: seq<string>)
    ensures forall i :: 0 <= i < |Groups(lines)| ==> "" !in Groups(lines)[i]
  {
    if lines != [] {
      var init := lines[..|lines| - 1];
      var line := lines[|lines| - 1];
      GroupsNoBlank(init);
      var g := Groups(init);
      if line != "" {
        var r := Groups(lines);
        assert forall i :: 0 <= i < |r| - 1 ==> r[i] == g[i];
      } else {
        assert forall i :: 0 <= i < |g| ==> Groups(lines)[i] == g[i];
      }
    }
  }

  /** `parse_lines`, pushing each line onto the current group. */
  method ParseLines(lines: seq<string>) returns (all: seq<seq<string>>)
    ensures all == Groups(lines)
  {
    all := [];
    var pattern: seq<string> := [];
    for i := 0 to |lines|
      invariant all + [pattern] == Groups(lines[..i])
    {
      assert lines[..i + 1][..i] == lines[..i];
      if lines[i] == "" {
        all := all + [pattern];
        pattern := [];
      } else {
        pattern := pattern + [lines[i]];
      }
    }
    assert lines[..|lines|] == lines;
    all := all + [pattern];
  }

  // ---------------------------------------------------------------------
  // Pairs of rows and columns that differ in a given number of places
  // ---------------------------------------------------------------------

  /** The number of places where `a` and `b` differ, over the shorter length (`zip`). */
  function Diff(a: string, b: string): (r: nat)
    ensures r <= |a| && r <= |b|
  {
    if a == [] || b == [] then 0
    else (if a[0] != b[0] then 1 else 0) + Diff(a[1..], b[1..])
  }

  lemma {:induction false} DiffSymmetric(a: string, b: string)
    ensures Diff(a, b) == Diff(b, a)
  {
    if a != [] && b != [] {
      DiffSymmetric(a[1..], b[1..]);
    }
  }

  /** No difference means equal on the common length. */
  lemma {:induction false} DiffZero(a: string, b: string)
    ensures Diff(a, b) == 0 <==> forall k :: 0 <= k < |a| && k < |b| ==> a[k] == b[k]
  {
    if a != [] && b != [] {
      DiffZero(a[1..], b[1..]);
      if Diff(a, b) == 0 {
        forall k | 0 <= k < |a| && k < |b|
          ensures a[k] == b[k]
        {
          if k > 0 {
            assert a[1..][k - 1] == a[k] && b[1..][k - 1] == b[k];
          }
        }
      } else if a[0] == b[0] {
        var k :| 0 <= k < |a[1..]| && k < |b[1..]| && a[1..][k] != b[1..][k];
        assert a[k + 1] != b[k + 1];
      }
    }
  }

  /** Lines p.0 and p.1 (counted from 1, in order) differ in exactly `error` places. */
  predicate Match(lines: seq<string>, error: nat, p: Pair)
  {
    1 <= p.0 < p.1 <= |lines| && Diff(lines[p.0 - 1], lines[p.1 - 1]) == error
  }

  /** The pairs (i + 1, k + 1) with i < k < j whose lines differ in exactly `error` places, in order of k. */
  function Partners(lines: seq<string>, error: nat, i: nat, j: nat): seq<Pair>
    requires i < |lines| && j <= |lines|
  {
    if j <= i + 1 then []
    else
      Partners(lines, error, i, j - 1)
      + (if Diff(lines[i], lines[j - 1]) == error then [(i + 1, j)] else [])
  }

  lemma {:induction false} PartnersMeaning(lines: seq<string>, error: nat, i: nat, j: nat, p: Pair)
    requires i < |lines| && j <= |lines|
    ensures p in Partners(lines, error, i, j) <==> p.0 == i + 1 && p.1 <= j && Match(lines, error, p)
  {
    if j > i + 1 {
      PartnersMeaning(lines, error, i, j - 1, p);
    }
  }

  /** The pairs whose first line is among the first `i`, in the order the source lists them. */
  function PairsBelow(lines: seq<string>, error: nat, i: nat): seq<Pair>
    requires i <= |lines|
  {
    if i == 0 then [] else PairsBelow(lines, error, i - 1) + Partners(lines, error, i - 1, |lines|)
  }

  lemma {:induction false} PairsBelowMeaning(lines: seq<string>, error: nat, i: nat, p: Pair)
    requires i <= |lines|
    ensures p in PairsBelow(lines, error, i) <==> p.0 <= i && Match(lines, error, p)
  {
    if i > 0 {
      PairsBelowStep(lines, error, i, p);
      PairsBelowMeaning(lines, error, i - 1, p);
      PartnersMeaning(lines, error, i - 1, |lines|, p);
    }
  }

  lemma PairsBelowStep(lines: seq<string>, error: nat, i: nat, p: Pair)
    requires 0 < i <= |lines|
    ensures p in PairsBelow(lines, error, i) <==>
      p in PairsBelow(lines, error, i - 1) || p in Partners(lines, error, i - 1, |lines|)
  {
    InAppend(PairsBelow(lines, error, i - 1), Partners(lines, error, i - 1, |lines|), p);
  }

  /** Membership in a concatenation, as one fact. */
  lemma InAppend<T>(a: seq<T>, b: seq<T>, x: T)
    ensures x in a + b <==> x in a || x in b
  {
  }

  /** All pairs (i + 1, j + 1), i < j, of lines that differ in exactly `error` places. */
  function SamePairs(lines: seq<string>, error: nat): seq<Pair>
  {
    PairsBelow(lines, error, |lines|)
  }

  lemma SamePairsMeaning(lines: seq<string>, error: nat, p: Pair)
    ensures p in SamePairs(lines, error) <==>
      1 <= p.0 < p.1 <= |lines| && Diff(lines[p.0 - 1], lines[p.1 - 1]) == error
  {
    PairsBelowMeaning(lines, error, |lines|, p);
  }

  /** Column `i` of the pattern (a row too short to have one gives a filler that is never used). */
  function Column(pattern: seq<string>, i: nat): (r: string)
    ensures |r| == |pattern|
  {
    seq(|pattern|, k requires 0 <= k < |pattern| => if i < |pattern[k]| then pattern[k][i] else '.')
  }

  /** Row k of column i is character i of row k. */
  lemma ColumnAt(pattern: seq<string>, i: nat, k: nat)
    requires k < |pattern| && i < |pattern[k]|
    ensures Column(pattern, i)[k] == pattern[k][i]
  {
  }

  /** The first `n` columns, each read top to bottom. */
  function Columns(pattern: seq<string>, n: nat): (r: seq<string>)
    ensures |r| == n
  {
    seq(n, i requires 0 <= i < n => Column(pattern, i))
  }

  /** Entry i of the first n columns is column i. */
  lemma ColumnsAt(pattern: seq<string>, n: nat, i: nat)
    requires i < n
    ensures Columns(pattern, n)[i] == Column(pattern, i)
  {
  }

  /** Every row has at least `n` characters. */
  predicate AllLong(pattern: seq<string>, n: nat)
  {
    forall k :: 0 <= k < |pattern| ==> n <= |pattern[k]|
  }

  /**
   * `find_same_rows_and_cols_within_error`: the row pairs and the column
   * pairs that differ in exactly `error` places. Reading `pattern[0]` fails
   * on an empty pattern, and reading a column fails as soon as a row is
   * shorter than the first one (when there are at least two columns).
   */
  function SameRowsCols(pattern: seq<string>, error: nat): Option<(seq<Pair>, seq<Pair>)>
  {
    if pattern == [] then None
    else
      var n := |pattern[0]|;
      if n >= 2 && !AllLong(pattern, n) then None
      else Some((SamePairs(pattern, error), SamePairs(Columns(pattern, n), error)))
  }

  /** The body of the column loop: columns i and j built one row at a time; `nth(..).unwrap()` fails on a short row. */
  method ColumnPair(pattern: seq<string>, i: nat, j: nat) returns (ok: bool, col1: string, col2: string)
    requires i < j
    ensures ok <==> AllLong(pattern, j + 1)
    ensures ok ==> col1 == Column(pattern, i) && col2 == Column(pattern, j)
  {
    col1, col2 := [], [];
    for k := 0 to |pattern|
      invariant AllLong(pattern[..k], j + 1)
      invariant col1 == Column(pattern, i)[..k] && col2 == Column(pattern, j)[..k]
    {
      if |pattern[k]| <= i {
        return false, col1, col2;
      }
      ColumnAt(pattern, i, k);
      col1 := col1 + [pattern[k][i]];
      if |pattern[k]| <= j {
        return false, col1, col2;
      }
      ColumnAt(pattern, j, k);
      col2 := col2 + [pattern[k][j]];
    }
    assert pattern[..|pattern|] == pattern;
    ok := true;
  }

  /** The row loop of `find_same_rows_and_cols_within_error`. */
  method SameRows(pattern: seq<string>, error: nat) returns (rows: seq<Pair>)
    ensures rows == SamePairs(pattern, error)
  {
    rows := [];
    var m := |pattern|;
    for i := 0 to m
      invariant rows == PairsBelow(pattern, error, i)
    {
      for j := i + 1 to m
        invariant rows == PairsBelow(pattern, error, i) + Partners(pattern, error, i, j)
      {
        if Diff(pattern[i], pattern[j]) == error {
          rows := rows + [(i + 1, j + 1)];
        }
      }
    }
  }

  /** A row too short for `a` columns is too short for `b >= a`. */
  lemma ShortAbove(pattern: seq<string>, a: nat, b: nat)
    requires a <= b && !AllLong(pattern, a)
    ensures !AllLong(pattern, b)
  {
  }

  /** The inner column loop for column `i`: pairs it with every later column, failing on a short row. */
  method ColumnPartners(pattern: seq<string>, lines: seq<string>, n: nat, error: nat, i: nat, cols0: seq<Pair>)
    returns (ok: bool, cols: seq<Pair>)
    requires lines == Columns(pattern, n) && i < n
    ensures ok <==> n <= i + 1 || AllLong(pattern, n)
    ensures ok ==> cols == cols0 + Partners(lines, error, i, n)
  {
    cols := cols0;
    for j := i + 1 to n
      invariant cols == cols0 + Partners(lines, error, i, j)
      invariant j > i + 1 ==> AllLong(pattern, j)
    {
      var good, col1, col2 := ColumnPair(pattern, i, j);
      if !good {
        ShortAbove(pattern, j + 1, n);
        return false, cols;
      }
      ColumnsAt(pattern, n, i);
      ColumnsAt(pattern, n, j);
      if Diff(col1, col2) == error {
        cols := cols + [(i + 1, j + 1)];
      }
    }
    ok := true;
  }

  /** The column loop of `find_same_rows_and_cols_within_error`; false when a row is too short. */
  method SameCols(pattern: seq<string>, n: nat, error: nat) returns (ok: bool, cols: seq<Pair>)
    ensures ok <==> n < 2 || AllLong(pattern, n)
    ensures ok ==> cols == SamePairs(Columns(pattern, n), error)
  {
    cols := [];
    var lines := Columns(pattern, n);
    for i := 0 to n
      invariant cols == PairsBelow(lines, error, i)
      invariant i > 0 && n >= 2 ==> AllLong(pattern, n)
    {
      var good;
      good, cols := ColumnPartners(pattern, lines, n, error, i, cols);
      if !good {
        return false, cols;
      }
    }
    ok := true;
  }

  /** `find_same_rows_and_cols_within_error`. */
  method FindSame(pattern: seq<string>, error: nat) returns (r: Option<(seq<Pair>, seq<Pair>)>)
    ensures r == SameRowsCols(pattern, error)
  {
    if pattern == [] {
      return None;
    }
    var rows := SameRows(pattern, error);
    var ok, cols := SameCols(pattern, |pattern[0]|, error);
    if !ok {
      return None;
    }
    r := Some((rows, cols));
  }

  // ---------------------------------------------------------------------
  // Walking inwards from a pair
  // ---------------------------------------------------------------------

  predicate Ordered(s: set<Pair>)
  {
    forall p :: p in s ==> p.0 < p.1
  }

  predicate OrderedSeq(ps: seq<Pair>)
  {
    forall k :: 0 <= k < |ps| ==> ps[k].0 < ps[k].1
  }

  function AsSet(ps: seq<Pair>): (r: set<Pair>)
    ensures forall p :: p in r <==> p in ps
  {
    set p | p in ps
  }

  /**
   * The inner `loop` of `find_reflection`: from the pair (s, e), step to
   * (s + 1, e - 1) while that pair is a same pair, or, once, a one-off pair.
   * The result is the line where the walk reaches an adjacent pair, with
   * whether a one-off pair was used; None when the walk stops earlier.
   */
  function Walk(same: set<Pair>, oneOff: set<Pair>, s: nat, e: nat, used: bool): Option<(nat, bool)>
    requires Ordered(same) && Ordered(oneOff) && s < e
    decreases e - s
  {
    if e - s == 1 then Some((s, used))
    else if (s + 1, e - 1) in same then Walk(same, oneOff, s + 1, e - 1, used)
    else if !used && (s + 1, e - 1) in oneOff then Walk(same, oneOff, s + 1, e - 1, true)
    else None
  }

  /** The walk as the source writes it, with its cursors. */
  method WalkFrom(same: set<Pair>, oneOff: set<Pair>, s0: nat, e0: nat, used0: bool) returns (rec: Option<(nat, bool)>)
    requires Ordered(same) && Ordered(oneOff) && s0 < e0
    ensures rec == Walk(same, oneOff, s0, e0, used0)
  {
    var s, e, used := s0, e0, used0;
    rec := None;
    while true
      invariant s < e && rec == None
      invariant Walk(same, oneOff, s0, e0, used0) == Walk(same, oneOff, s, e, used)
      decreases e - s
    {
      if e - s == 1 {
        rec := Some((s, used));
      }
      s, e := s + 1, e - 1;
      if (s, e) !in same {
        if !used && (s, e) in oneOff {
          used := true;
          continue;
        } else {
          return;
        }
      }
    }
  }

  /** A start of a walk: a pair and whether it is a one-off pair. */
  type Start = (nat, nat, bool)

  /** The pairs of `ps` that start on line 1 (`first`) or end on line `last`, tagged with `used`. */
  function Touching(ps: seq<Pair>, first: bool, last: nat, used: bool): seq<Start>
  {
    if ps == [] then []
    else
      var p := ps[|ps| - 1];
      var init := Touching(ps[..|ps| - 1], first, last, used);
      if (if first then p.0 == 1 else p.1 == last) then init + [(p.0, p.1, used)] else init
  }

  lemma {:induction false} TouchingMeaning(ps: seq<Pair>, first: bool, last: nat, used: bool, x: Start)
    ensures x in Touching(ps, first, last, used) <==>
      (x.0, x.1) in ps && x.2 == used && (if first then x.0 == 1 else x.1 == last)
  {
    if ps != [] {
      var init := ps[..|ps| - 1];
      TouchingMeaning(init, first, last, used, x);
      assert ps == init + [ps[|ps| - 1]];
    }
  }

  /** The chained iterator of `find_reflection`. */
  function Starts(same: seq<Pair>, oneOff: seq<Pair>, last: nat): seq<Start>
  {
    Touching(same, true, last, false) + Touching(same, false, last, false)
    + Touching(oneOff, true, last, true) + Touching(oneOff, false, last, true)
  }

  lemma StartsMeaning(same: seq<Pair>, oneOff: seq<Pair>, last: nat, x: Start)
    ensures x in Starts(same, oneOff, last) <==>
      (x.0 == 1 || x.1 == last) && (if x.2 then (x.0, x.1) in oneOff else (x.0, x.1) in same)
  {
    TouchingMeaning(same, true, last, false, x);
    TouchingMeaning(same, false, last, false, x);
    TouchingMeaning(oneOff, true, last, true, x);
    TouchingMeaning(oneOff, false, last, true, x);
  }

  /** Every start of a walk lies on an ordered pair. */
  lemma StartsOrdered(same: seq<Pair>, oneOff: seq<Pair>, last: nat)
    requires OrderedSeq(same) && OrderedSeq(oneOff)
    ensures forall k :: 0 <= k < |Starts(same, oneOff, last)| ==>
      Starts(same, oneOff, last)[k].0 < Starts(same, oneOff, last)[k].1
  {
    var starts := Starts(same, oneOff, last);
    forall k | 0 <= k < |starts|
      ensures starts[k].0 < starts[k].1
    {
      StartsMeaning(same, oneOff, last, starts[k]);
    }
  }

  /** The recorded lines of the walks from `starts`: those without and those with a one-off pair. */
  function Collect(same: set<Pair>, oneOff: set<Pair>, starts: seq<Start>): (seq<nat>, seq<nat>)
    requires Ordered(same) && Ordered(oneOff)
    requires forall k :: 0 <= k < |starts| ==> starts[k].0 < starts[k].1
  {
    if starts == [] then ([], [])
    else
      var acc := Collect(same, oneOff, starts[..|starts| - 1]);
      var x := starts[|starts| - 1];
      match Walk(same, oneOff, x.0, x.1, x.2)
      case None => acc
      case Some(rec) => if rec.1 then (acc.0, acc.1 + [rec.0]) else (acc.0 + [rec.0], acc.1)
  }

  /** A line is recorded exactly when some walk from the starts reaches it. */
  lemma {:induction false} CollectMeaning(same: set<Pair>, oneOff: set<Pair>, starts: seq<Start>, c: nat, one: bool)
    requires Ordered(same) && Ordered(oneOff)
    requires forall k :: 0 <= k < |starts| ==> starts[k].0 < starts[k].1
    ensures (if one then c in Collect(same, oneOff, starts).1 else c in Collect(same, oneOff, starts).0) <==>
      exists k :: 0 <= k < |starts| && Walk(same, oneOff, starts[k].0, starts[k].1, starts[k].2) == Some((c, one))
  {
    if starts != [] {
      var init := starts[..|starts| - 1];
      CollectMeaning(same, oneOff, init, c, one);
      var n := |starts| - 1;
      if exists k :: 0 <= k < |starts| && Walk(same, oneOff, starts[k].0, starts[k].1, starts[k].2) == Some((c, one)) {
        var k :| 0 <= k < |starts| && Walk(same, oneOff, starts[k].0, starts[k].1, starts[k].2) == Some((c, one));
        if k < n {
          assert init[k] == starts[k];
        }
      }
      if exists k :: 0 <= k < |init| && Walk(same, oneOff, init[k].0, init[k].1, init[k].2) == Some((c, one)) {
        var k :| 0 <= k < |init| && Walk(same, oneOff, init[k].0, init[k].1, init[k].2) == Some((c, one));
        assert starts[k] == init[k];
      }
    }
  }

  /** `find_reflection`'s result, from the lists of same and one-off pairs. */
  function Reflections(same: seq<Pair>, oneOff: seq<Pair>, last: nat): (seq<nat>, seq<nat>)
    requires OrderedSeq(same) && OrderedSeq(oneOff)
  {
    StartsOrdered(same, oneOff, last);
    Collect(AsSet(same), AsSet(oneOff), Starts(same, oneOff, last))
  }

  /** `find_reflection`. */
  method FindReflection(same: seq<Pair>, oneOff: seq<Pair>, last: nat) returns (plain: seq<nat>, withOneOff: seq<nat>)
    requires OrderedSeq(same) && OrderedSeq(oneOff)
    ensures (plain, withOneOff) == Reflections(same, oneOff, last)
  {
    var rows := AsSet(same);
    var oneOffRows := AsSet(oneOff);
    var starts := Starts(same, oneOff, last);
    StartsOrdered(same, oneOff, last);
    plain, withOneOff := [], [];
    for k := 0 to |starts|
      invariant (plain, withOneOff) == Collect(rows, oneOffRows, starts[..k])
    {
      assert starts[..k + 1][..k] == starts[..k];
      var x := starts[k];
      var rec := WalkFrom(rows, oneOffRows, x.0, x.1, x.2);
      if rec.Some? {
        if rec.value.1 {
          withOneOff := withOneOff + [rec.value.0];
        } else {
          plain := plain + [rec.value.0];
        }
      }
    }
    assert starts[..|starts|] == starts;
  }

  // ---------------------------------------------------------------------
  // What the walks find: mirrors
  // ---------------------------------------------------------------------

  /** The differences of the k pairs of lines nearest the line between (1-based) lines c and c + 1. */
  function Cost(lines: seq<string>, c: nat, k: nat): nat
    requires k <= c && c + k <= |lines|
  {
    if k == 0 then 0 else Cost(lines, c, k - 1) + Diff(lines[c - k], lines[c + k - 1])
  }

  /** How many pairs face each other across the line after line c. */
  function Reach(lines: seq<string>, c: nat): nat
    requires c <= |lines|
  {
    if c <= |lines| - c then c else |lines| - c
  }

  /**
   * A mirror after line c that needs `smudges` cells changed: the pairs
   * facing each other across it differ in `smudges` places in total.
   */
  ghost predicate IsMirror(lines: seq<string>, c: nat, smudges: nat)
  {
    1 <= c < |lines| && Cost(lines, c, Reach(lines, c)) == smudges
  }

  /** The differences of the pairs strictly inside (s, e), walking inwards. */
  function InCost(lines: seq<string>, s: nat, e: nat): nat
    requires 1 <= s < e <= |lines|
    decreases e - s
  {
    if e - s <= 2 then 0 else Diff(lines[s], lines[e - 2]) + InCost(lines, s + 1, e - 1)
  }

  /** Whether `d` is odd, counted down by twos. */
  function Odd(d: nat): bool
  {
    if d < 2 then d == 1 else Odd(d - 2)
  }

  /** The line midway inside the pair (s, e), found by walking inwards. */
  function Mid(s: nat, e: nat): nat
    requires s < e
    decreases e - s
  {
    if e - s <= 2 then s else Mid(s + 1, e - 1)
  }

  /** An odd span has its middle line exactly halfway. */
  lemma {:induction false} MidIsHalf(s: nat, e: nat)
    requires s < e && Odd(e - s)
    ensures 2 * Mid(s, e) == s + e - 1
    decreases e - s
  {
    if e - s > 2 {
      MidIsHalf(s + 1, e - 1);
    }
  }

  /** The k pairs facing each other across the line after line c span an odd number of lines around c. */
  lemma {:induction false} MidOf(c: nat, k: nat)
    requires 1 <= k <= c
    ensures Odd(2 * k - 1) && Mid(c - k + 1, c + k) == c
  {
    if k > 1 {
      MidOf(c, k - 1);
    }
  }

  /** The walk from the outermost pair adds up the same differences as the mirror. */
  lemma {:induction false} InCostIsCost(lines: seq<string>, s: nat, e: nat)
    requires 1 <= s < e <= |lines| && Odd(e - s)
    ensures Mid(s, e) + (Mid(s, e) - s + 1) == e
    ensures Diff(lines[s - 1], lines[e - 1]) + InCost(lines, s, e) == Cost(lines, Mid(s, e), Mid(s, e) - s + 1)
    decreases e - s
  {
    MidIsHalf(s, e);
    if e - s > 1 {
      InCostIsCost(lines, s + 1, e - 1);
    }
  }

  /** The set of same pairs (error 0) and the set of one-off pairs (error 1, only with a smudge). */
  function SameSet(lines: seq<string>): set<Pair>
  {
    AsSet(SamePairs(lines, 0))
  }

  function OneOffSet(lines: seq<string>, smudge: bool): set<Pair>
  {
    if smudge then AsSet(SamePairs(lines, 1)) else {}
  }

  lemma SetsOrdered(lines: seq<string>, smudge: bool)
    ensures Ordered(SameSet(lines)) && Ordered(OneOffSet(lines, smudge))
  {
    forall p | p in SameSet(lines)
      ensures p.0 < p.1
    {
      SamePairsMeaning(lines, 0, p);
    }
    forall p | p in OneOffSet(lines, smudge)
      ensures p.0 < p.1
    {
      SamePairsMeaning(lines, 1, p);
    }
  }

  lemma SameSetIs(lines: seq<string>, smudge: bool)
    ensures AsSet(SamePairs(lines, 0)) == SameSet(lines)
    ensures AsSet(if smudge then SamePairs(lines, 1) else []) == OneOffSet(lines, smudge)
  {
    if !smudge {
      assert AsSet([]) == {};
    }
  }

  /** A walk succeeds exactly when the pairs inside cost no more than the one-off budget. */
  lemma {:induction false} WalkCost(lines: seq<string>, smudge: bool, s: nat, e: nat, used: bool)
    requires 1 <= s < e <= |lines|
    ensures Ordered(SameSet(lines)) && Ordered(OneOffSet(lines, smudge))
    ensures Walk(SameSet(lines), OneOffSet(lines, smudge), s, e, used)
      == if Odd(e - s) && InCost(lines, s, e) <= (if smudge && !used then 1 else 0)
         then Some((Mid(s, e), used || InCost(lines, s, e) == 1))
         else None
    decreases e - s
  {
    SetsOrdered(lines, smudge);
    if e - s == 2 {
      assert (s + 1, e - 1) !in SameSet(lines) && (s + 1, e - 1) !in OneOffSet(lines, smudge);
    } else if e - s > 2 {
      SamePairsMeaning(lines, 0, (s + 1, e - 1));
      SamePairsMeaning(lines, 1, (s + 1, e - 1));
      WalkCost(lines, smudge, s + 1, e - 1, used);
      WalkCost(lines, smudge, s + 1, e - 1, true);
    }
  }

  /** The outermost pair facing across the line after line c touches the first or the last line. */
  lemma OuterPair(lines: seq<string>, c: nat)
    requires 1 <= c < |lines|
    ensures var k := Reach(lines, c); 1 <= k <= c && c + k <= |lines| && (k == c || c + k == |lines|)
  {
  }

  /**
   * The walks find the mirrors: a line is recorded without a one-off pair
   * exactly when it is a perfect mirror, and (with a smudge) with a one-off
   * pair exactly when it is a mirror needing one fix.
   */
  lemma Mirrors(lines: seq<string>, smudge: bool, c: nat)
    ensures c in Found(lines, smudge).0 <==> IsMirror(lines, c, 0)
    ensures c in Found(lines, smudge).1 <==> smudge && IsMirror(lines, c, 1)
  {
    MirrorsOne(lines, smudge, c, false);
    MirrorsOne(lines, smudge, c, true);
  }

  lemma MirrorsOne(lines: seq<string>, smudge: bool, c: nat, one: bool)
    ensures c in (if one then Found(lines, smudge).1 else Found(lines, smudge).0)
      <==> (one ==> smudge) && IsMirror(lines, c, if one then 1 else 0)
  {
    var same := SamePairs(lines, 0);
    var oneOff := if smudge then SamePairs(lines, 1) else [];
    SamePairsOrdered(lines, 0);
    SamePairsOrdered(lines, 1);
    SameSetIs(lines, smudge);
    SetsOrdered(lines, smudge);
    var starts := Starts(same, oneOff, |lines|);
    forall k | 0 <= k < |starts|
      ensures 1 <= starts[k].0 < starts[k].1 <= |lines|
    {
      StartsMeaning(same, oneOff, |lines|, starts[k]);
      SamePairsMeaning(lines, 0, (starts[k].0, starts[k].1));
      SamePairsMeaning(lines, 1, (starts[k].0, starts[k].1));
    }
    CollectMeaning(SameSet(lines), OneOffSet(lines, smudge), starts, c, one);
    if exists k :: 0 <= k < |starts| && Walk(SameSet(lines), OneOffSet(lines, smudge), starts[k].0, starts[k].1, starts[k].2) == Some((c, one)) {
      var k :| 0 <= k < |starts| && Walk(SameSet(lines), OneOffSet(lines, smudge), starts[k].0, starts[k].1, starts[k].2) == Some((c, one));
      FoundIsMirror(lines, smudge, starts[k], c, one);
    }
    if (one ==> smudge) && IsMirror(lines, c, if one then 1 else 0) {
      var x := MirrorIsFound(lines, smudge, c, one);
      var k :| 0 <= k < |starts| && starts[k] == x;
    }
  }

  /** A recorded line is a mirror. */
  lemma FoundIsMirror(lines: seq<string>, smudge: bool, x: Start, c: nat, one: bool)
    requires x in Starts(SamePairs(lines, 0), if smudge then SamePairs(lines, 1) else [], |lines|)
    requires x.0 < x.1 && Ordered(SameSet(lines)) && Ordered(OneOffSet(lines, smudge))
    requires Walk(SameSet(lines), OneOffSet(lines, smudge), x.0, x.1, x.2) == Some((c, one))
    ensures (one ==> smudge) && IsMirror(lines, c, if one then 1 else 0)
  {
    StartFacts(lines, smudge, x);
    WalkIsMirror(lines, smudge, x.0, x.1, x.2, c, one);
  }

  /** A start touches the first or the last line, and its lines differ once exactly when it is a one-off start. */
  lemma StartFacts(lines: seq<string>, smudge: bool, x: Start)
    requires x in Starts(SamePairs(lines, 0), if smudge then SamePairs(lines, 1) else [], |lines|)
    ensures 1 <= x.0 < x.1 <= |lines| && (x.0 == 1 || x.1 == |lines|)
    ensures Diff(lines[x.0 - 1], lines[x.1 - 1]) == (if x.2 then 1 else 0) && (x.2 ==> smudge)
  {
    StartsMeaning(SamePairs(lines, 0), if smudge then SamePairs(lines, 1) else [], |lines|, x);
    SamePairsMeaning(lines, if x.2 then 1 else 0, (x.0, x.1));
  }

  /** A walk from such a start that reaches line c finds a mirror there. */
  lemma WalkIsMirror(lines: seq<string>, smudge: bool, s: nat, e: nat, used: bool, c: nat, one: bool)
    requires 1 <= s < e <= |lines| && (s == 1 || e == |lines|)
    requires Diff(lines[s - 1], lines[e - 1]) == (if used then 1 else 0) && (used ==> smudge)
    requires Ordered(SameSet(lines)) && Ordered(OneOffSet(lines, smudge))
    requires Walk(SameSet(lines), OneOffSet(lines, smudge), s, e, used) == Some((c, one))
    ensures (one ==> smudge) && IsMirror(lines, c, if one then 1 else 0)
  {
    WalkCost(lines, smudge, s, e, used);
    InCostIsCost(lines, s, e);
    MidIsHalf(s, e);
  }

  /** Every mirror is recorded. */
  lemma MirrorIsFound(lines: seq<string>, smudge: bool, c: nat, one: bool) returns (x: Start)
    requires (one ==> smudge) && IsMirror(lines, c, if one then 1 else 0)
    ensures x in Starts(SamePairs(lines, 0), if smudge then SamePairs(lines, 1) else [], |lines|)
    ensures x.0 < x.1 && Ordered(SameSet(lines)) && Ordered(OneOffSet(lines, smudge))
    ensures Walk(SameSet(lines), OneOffSet(lines, smudge), x.0, x.1, x.2) == Some((c, one))
  {
    var k := Reach(lines, c);
    OuterPair(lines, c);
    var d := OuterWalk(lines, smudge, c, one);
    x := (c - k + 1, c + k, d == 1);
    OuterIsStart(lines, smudge, x.0, x.1, d);
  }

  /** A pair touching the first or the last line that differs at most once is a start (a one-off one with a smudge). */
  lemma OuterIsStart(lines: seq<string>, smudge: bool, s: nat, e: nat, d: nat)
    requires 1 <= s < e <= |lines| && (s == 1 || e == |lines|)
    requires d == Diff(lines[s - 1], lines[e - 1]) && (d == 0 || (d == 1 && smudge))
    ensures (s, e, d == 1) in Starts(SamePairs(lines, 0), if smudge then SamePairs(lines, 1) else [], |lines|)
  {
    SamePairsMeaning(lines, d, (s, e));
    StartsMeaning(SamePairs(lines, 0), if smudge then SamePairs(lines, 1) else [], |lines|, (s, e, d == 1));
  }

  /** The walk from the outermost pair around a mirror reaches it, having used a one-off pair exactly when that pair differs once. */
  lemma OuterWalk(lines: seq<string>, smudge: bool, c: nat, one: bool) returns (d: nat)
    requires (one ==> smudge) && IsMirror(lines, c, if one then 1 else 0)
    ensures var k := Reach(lines, c);
      1 <= c - k + 1 < c + k <= |lines|
      && d == Diff(lines[c - k], lines[c + k - 1]) && d <= (if one then 1 else 0)
      && Ordered(SameSet(lines)) && Ordered(OneOffSet(lines, smudge))
      && Walk(SameSet(lines), OneOffSet(lines, smudge), c - k + 1, c + k, d == 1) == Some((c, one))
  {
    var k := Reach(lines, c);
    OuterPair(lines, c);
    MidOf(c, k);
    var s, e := c - k + 1, c + k;
    InCostIsCost(lines, s, e);
    d := Diff(lines[s - 1], lines[e - 1]);
    WalkCost(lines, smudge, s, e, d == 1);
  }

  // ---------------------------------------------------------------------
  // One pattern, and all of them
  // ---------------------------------------------------------------------

  /** The first element, 0 when there is none (`get(0).unwrap_or(&0)`). */
  function First(s: seq<nat>): (r: nat)
    ensures s == [] ==> r == 0
    ensures s != [] ==> r in s
  {
    if s == [] then 0 else s[0]
  }

  /**
   * `find_reflection` applied to the same pairs and (with a smudge) the
   * one-off pairs of `lines`, which are rows or columns.
   */
  function Found(lines: seq<string>, smudge: bool): (seq<nat>, seq<nat>)
  {
    SamePairsOrdered(lines, 0);
    SamePairsOrdered(lines, 1);
    Reflections(SamePairs(lines, 0), if smudge then SamePairs(lines, 1) else [], |lines|)
  }

  /**
   * The decision of `compute_pattern_summary` from what was found in the rows
   * and in the columns: it fails when there is no perfect mirror at all and,
   * with a smudge, when there is no mirror needing one fix; otherwise it
   * takes the first row and the first column of the wanted kind (0 for none).
   */
  function Decide(rows: (seq<nat>, seq<nat>), cols: (seq<nat>, seq<nat>), smudge: bool): Option<(nat, nat)>
  {
    if (rows.0 == [] && cols.0 == []) || (smudge && rows.1 == [] && cols.1 == []) then None
    else if smudge then Some((First(rows.1), First(cols.1)))
    else Some((First(rows.0), First(cols.0)))
  }

  /** `compute_pattern_summary`: fails when the pattern cannot be read, else decides on its mirrors. */
  function Summary(pattern: seq<string>, smudge: bool): Option<(nat, nat)>
  {
    match SameRowsCols(pattern, 0)
    case None => None
    case Some(_) => Decide(Found(pattern, smudge), Found(Columns(pattern, |pattern[0]|), smudge), smudge)
  }

  lemma SamePairsOrdered(lines: seq<string>, error: nat)
    ensures OrderedSeq(SamePairs(lines, error))
  {
    forall k | 0 <= k < |SamePairs(lines, error)|
      ensures SamePairs(lines, error)[k].0 < SamePairs(lines, error)[k].1
    {
      SamePairsMeaning(lines, error, SamePairs(lines, error)[k]);
    }
  }

  /** `compute_pattern_summary`. */
  method ComputeSummary(pattern: seq<string>, smudge: bool) returns (r: Option<(nat, nat)>)
    ensures r == Summary(pattern, smudge)
  {
    var same := FindSame(pattern, 0);
    if same.None? {
      return None;
    }
    var oneOff := Some(([], []));
    if smudge {
      oneOff := FindSame(pattern, 1);
      if oneOff.None? {
        return None;
      }
    }
    var cols := Columns(pattern, |pattern[0]|);
    SamePairsOrdered(pattern, 0);
    SamePairsOrdered(pattern, 1);
    SamePairsOrdered(cols, 0);
    SamePairsOrdered(cols, 1);
    var rowsPlain, rowsOneOff := FindReflection(same.value.0, oneOff.value.0, |pattern|);
    var colsPlain, colsOneOff := FindReflection(same.value.1, oneOff.value.1, |pattern[0]|);
    assert (rowsPlain, rowsOneOff) == Found(pattern, smudge);
    assert (colsPlain, colsOneOff) == Found(cols, smudge);
    if (rowsPlain == [] && colsPlain == []) || (smudge && rowsOneOff == [] && colsOneOff == []) {
      return None;
    }
    if smudge {
      r := Some((First(rowsOneOff), First(colsOneOff)));
    } else {
      r := Some((First(rowsPlain), First(colsPlain)));
    }
  }

  /** Every recorded line lies between two rows or columns. */
  lemma FoundPositive(lines: seq<string>, smudge: bool)
    ensures forall c :: c in Found(lines, smudge).0 || c in Found(lines, smudge).1 ==> 1 <= c
  {
    forall c | c in Found(lines, smudge).0 || c in Found(lines, smudge).1
      ensures 1 <= c
    {
      Mirrors(lines, smudge, c);
    }
  }

  /** A decision fails exactly on missing mirrors, and otherwise reports recorded lines, not both 0. */
  lemma DecideMeaning(rows: (seq<nat>, seq<nat>), cols: (seq<nat>, seq<nat>), smudge: bool)
    requires forall c :: c in rows.0 || c in rows.1 || c in cols.0 || c in cols.1 ==> 1 <= c
    ensures Decide(rows, cols, smudge).None? <==>
      (rows.0 == [] && cols.0 == []) || (smudge && rows.1 == [] && cols.1 == [])
    ensures Decide(rows, cols, smudge).Some? ==>
      var (r, c) := Decide(rows, cols, smudge).value;
      (r != 0 || c != 0)
      && (r == 0 || r in (if smudge then rows.1 else rows.0))
      && (c == 0 || c in (if smudge then cols.1 else cols.0))
  {
  }

  /** No line is in `s` exactly when `s` is empty. */
  lemma EmptyNoMember(s: seq<nat>)
    ensures s == [] <==> !exists c :: c in s
  {
    if s != [] {
      assert s[0] in s;
    }
  }

  /** The rows or columns of `lines` have a mirror of the given kind exactly when one was recorded. */
  lemma FoundAny(lines: seq<string>, smudge: bool)
    ensures Found(lines, smudge).0 != [] <==> exists c :: IsMirror(lines, c, 0)
    ensures Found(lines, smudge).1 != [] <==> smudge && exists c :: IsMirror(lines, c, 1)
  {
    EmptyNoMember(Found(lines, smudge).0);
    EmptyNoMember(Found(lines, smudge).1);
    forall c | true
      ensures (c in Found(lines, smudge).0 <==> IsMirror(lines, c, 0))
      ensures (c in Found(lines, smudge).1 <==> smudge && IsMirror(lines, c, 1))
    {
      Mirrors(lines, smudge, c);
    }
  }

  /**
   * What a summary means: for a readable pattern it fails exactly when
   * there is no perfect mirror, or (with a smudge) no mirror needing one
   * fix; otherwise each non-zero number is such a mirror, and they are not
   * both zero.
   */
  lemma SummaryMeaning(pattern: seq<string>, smudge: bool)
    requires SameRowsCols(pattern, 0).Some?
    ensures var rows := pattern;
      var cols := Columns(pattern, |pattern[0]|);
      var want := if smudge then 1 else 0;
      && (Summary(pattern, smudge).None? <==>
           (!(exists c :: IsMirror(rows, c, 0)) && !(exists c :: IsMirror(cols, c, 0)))
           || (smudge && !(exists c :: IsMirror(rows, c, 1)) && !(exists c :: IsMirror(cols, c, 1))))
      && (Summary(pattern, smudge).Some? ==>
           var (r, c) := Summary(pattern, smudge).value;
           (r != 0 || c != 0) && (r == 0 || IsMirror(rows, r, want)) && (c == 0 || IsMirror(cols, c, want)))
  {
    var cols := Columns(pattern, |pattern[0]|);
    var fr, fc := Found(pattern, smudge), Found(cols, smudge);
    FoundPositive(pattern, smudge);
    FoundPositive(cols, smudge);
    DecideMeaning(fr, fc, smudge);
    FoundAny(pattern, smudge);
    FoundAny(cols, smudge);
    var s := Summary(pattern, smudge);
    if s.Some? {
      var (r, c) := s.value;
      Mirrors(pattern, smudge, r);
      Mirrors(cols, smudge, c);
    }
  }

  /** The score of one pattern: `col + 100 * row`. */
  function Score(pattern: seq<string>, smudge: bool): Option<nat>
  {
    match Summary(pattern, smudge)
    case None => None
    case Some(rc) => Some(rc.1 + 100 * rc.0)
  }

  /** The sum of the scores; one failing score makes the whole fail. */
  function SumScores<T>(items: seq<T>, score: T -> Option<nat>): Option<nat>
  {
    if items == [] then Some(0)
    else
      match SumScores(items[..|items| - 1], score)
      case None => None
      case Some(t) =>
        match score(items[|items| - 1])
        case None => None
        case Some(x) => Some(t + x)
  }

  function ScoreOf(smudge: bool): seq<string> -> Option<nat>
  {
    p => Score(p, smudge)
  }

  /** `aggregate_all_patterns`. */
  function Total(patterns: seq<seq<string>>, smudge: bool): Option<nat>
  {
    SumScores(patterns, ScoreOf(smudge))
  }

  /** The sum fails exactly when one of the scores does. */
  lemma {:induction false} SumScoresFails<T>(items: seq<T>, score: T -> Option<nat>)
    ensures SumScores(items, score).None? <==> exists k :: 0 <= k < |items| && score(items[k]).None?
  {
    if items != [] {
      var init := items[..|items| - 1];
      SumScoresFails(init, score);
      if exists k :: 0 <= k < |init| && score(init[k]).None? {
        var k :| 0 <= k < |init| && score(init[k]).None?;
        assert items[k] == init[k];
      }
      if exists k :: 0 <= k < |items| && score(items[k]).None? {
        var k :| 0 <= k < |items| && score(items[k]).None?;
        if k < |init| {
          assert init[k] == items[k];
        }
      }
    }
  }

  /** Sums add up over a split of the items. */
  lemma {:induction false} SumScoresAppend<T>(a: seq<T>, b: seq<T>, score: T -> Option<nat>)
    requires SumScores(a, score).Some? && SumScores(b, score).Some?
    ensures SumScores(a + b, score) == Some(SumScores(a, score).value + SumScores(b, score).value)
  {
    if b == [] {
      assert a + b == a;
    } else {
      var init := b[..|b| - 1];
      assert (a + b)[..|a + b| - 1] == a + init;
      assert (a + b)[|a + b| - 1] == b[|b| - 1];
      SumScoresAppend(a, init, score);
    }
  }

  /** The total fails exactly when one pattern's summary does. */
  lemma TotalFails(patterns: seq<seq<string>>, smudge: bool)
    ensures Total(patterns, smudge).None? <==> exists k :: 0 <= k < |patterns| && Summary(patterns[k], smudge).None?
  {
    SumScoresFails(patterns, ScoreOf(smudge));
  }

  /** A failure in a prefix is a failure of the whole. */
  lemma TotalPrefixFails(patterns: seq<seq<string>>, k: nat, smudge: bool)
    requires k <= |patterns| && Total(patterns[..k], smudge).None?
    ensures Total(patterns, smudge).None?
  {
    TotalFails(patterns[..k], smudge);
    TotalFails(patterns, smudge);
    var i :| 0 <= i < k && Summary(patterns[..k][i], smudge).None?;
    assert patterns[i] == patterns[..k][i];
  }

  /** `aggregate_all_patterns`. */
  method AggregateAllPatterns(patterns: seq<seq<string>>, smudge: bool) returns (r: Option<nat>)
    ensures r == Total(patterns, smudge)
  {
    var total := 0;
    for k := 0 to |patterns|
      invariant Total(patterns[..k], smudge) == Some(total)
    {
      assert patterns[..k + 1][..k] == patterns[..k];
      var s := ComputeSummary(patterns[k], smudge);
      if s.None? {
        assert Total(patterns[..k + 1], smudge) == None;
        TotalPrefixFails(patterns, k + 1, smudge);
        return None;
      }
      total := total + s.value.1 + 100 * s.value.0;
    }
    assert patterns[..|patterns|] == patterns;
    r := Some(total);
  }

  method P1(lines: seq<string>) returns (r: Option<nat>)
    ensures r == Total(Groups(lines), false)
  {
    var patterns := ParseLines(lines);
    r := AggregateAllPatterns(patterns, false);
  }

  method P2(lines: seq<string>) returns (r: Option<nat>)
    ensures r == Total(Groups(lines), true)
  {
    var patterns := ParseLines(lines);
    r := AggregateAllPatterns(patterns, true);
  }
}
