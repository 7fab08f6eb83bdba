/**
 * Day 9: extrapolating a sequence with its table of differences, forwards
 * (the next value) and backwards (the previous value).
 */
module D9 {
  import opened Wrappers
  import opened Text

  /** The row of differences: one shorter, entry i is `s[i + 1] - s[i]`. */
  function Diffs(s: seq<int>): (r: seq<int>)
    ensures |r| == if s == [] then 0 else |s| - 1
    ensures forall i {:trigger r[i]} :: 0 <= i < |r| ==> r[i] == s[i + 1] - s[i]
  {
    if |s| <= 1 then [] else [s[1] - s[0]] + Diffs(s[1..])
  }

  predicate AllZero(s: seq<int>)
  {
    forall i :: 0 <= i < |s| ==> s[i] == 0
  }

  /**
   * The table the source builds: the input row, then difference rows up to
   * and including the first one that is all zero (an empty row counts as
   * all zero, so the table always ends).
   */
  function Table(v: seq<int>): (rows: seq<seq<int>>)
    ensures |rows| >= 2 && rows[0] == v && AllZero(rows[|rows| - 1])
    decreases |v|
  {
    if AllZero(Diffs(v)) then [v, Diffs(v)] else [v] + Table(Diffs(v))
  }

  /** Each row is the difference row of the one above it, and only the last row below the input is all zero. */
  lemma {:induction false} TableShape(v: seq<int>, i: nat)
    requires i + 1 < |Table(v)|
    ensures Table(v)[i + 1] == Diffs(Table(v)[i])
    ensures i >= 1 ==> !AllZero(Table(v)[i])
    decreases |v|
  {
    if !AllZero(Diffs(v)) && i >= 1 {
      TableShape(Diffs(v), i - 1);
    }
  }

  /** Forward extrapolation: the sum of the rows' last entries; an empty row is a panic. */
  function SumLasts(rows: seq<seq<int>>): Option<int>
  {
    if rows == [] then Some(0)
    else if rows[0] == [] then None
    else match SumLasts(rows[1..])
      case None => None
      case Some(s) => Some(rows[0][|rows[0]| - 1] + s)
  }

  /** Backward extrapolation: from the bottom row up, `acc := first - acc`; an empty row is a panic. */
  function FoldFirsts(rows: seq<seq<int>>): Option<int>
  {
    if rows == [] then Some(0)
    else if rows[0] == [] then None
    else match FoldFirsts(rows[1..])
      case None => None
      case Some(a) => Some(rows[0][0] - a)
  }

  function Forward(v: seq<int>): Option<int>
  {
    SumLasts(Table(v))
  }

  function Backward(v: seq<int>): Option<int>
  {
    FoldFirsts(Table(v))
  }

  // ---------------------------------------------------------------------
  // Backward extrapolation is forward extrapolation of the reversed row
  // ---------------------------------------------------------------------

  function Reverse(s: seq<int>): (r: seq<int>)
    ensures |r| == |s| && forall i :: 0 <= i < |s| ==> r[i] == s[|s| - 1 - i]
  {
    if s == [] then [] else Reverse(s[1..]) + [s[0]]
  }

  function Sign(neg: bool, x: int): int
  {
    if neg then -x else x
  }

  /** The row, negated when `neg`. */
  function Scale(neg: bool, s: seq<int>): (r: seq<int>)
    ensures |r| == |s| && forall i :: 0 <= i < |s| ==> r[i] == Sign(neg, s[i])
  {
    if s == [] then [] else [Sign(neg, s[0])] + Scale(neg, s[1..])
  }

  function ScaleOpt(neg: bool, o: Option<int>): Option<int>
  {
    if o.None? then None else Some(Sign(neg, o.value))
  }

  /** The differences of a reversed (and possibly negated) row are the reversed differences, negated. */
  lemma DiffsOfReverse(neg: bool, w: seq<int>)
    ensures Diffs(Scale(neg, Reverse(w))) == Scale(!neg, Reverse(Diffs(w)))
  {
    var u := Scale(neg, Reverse(w));
    var d := Diffs(w);
    var du := Diffs(u);
    var e := Scale(!neg, Reverse(d));
    assert |du| == |e|;
    forall i | 0 <= i < |du| ensures du[i] == e[i] {
      var j := |w| - 2 - i;
      assert Reverse(w)[i] == w[j + 1] && Reverse(w)[i + 1] == w[j];
      assert Reverse(d)[i] == d[j] == w[j + 1] - w[j];
      assert du[i] == Sign(neg, w[j]) - Sign(neg, w[j + 1]);
    }
  }

  /** Reversing and negating a row does not change whether it is all zero. */
  lemma AllZeroScaleReverse(neg: bool, d: seq<int>)
    ensures AllZero(Scale(neg, Reverse(d))) <==> AllZero(d)
  {
    var e := Scale(neg, Reverse(d));
    if !AllZero(d) {
      var k :| 0 <= k < |d| && d[k] != 0;
      assert e[|d| - 1 - k] != 0;
    }
    if !AllZero(e) {
      var k :| 0 <= k < |e| && e[k] != 0;
      assert d[|d| - 1 - k] != 0;
    }
  }

  /** Peeling the first row off the two folds. */
  lemma ConsRow(a: seq<int>, rest: seq<seq<int>>)
    ensures SumLasts([a] + rest) == if a == [] then None else ScaleAdd(a[|a| - 1], SumLasts(rest))
    ensures FoldFirsts([a] + rest) == if a == [] then None else ScaleAdd(a[0], ScaleOpt(true, FoldFirsts(rest)))
  {
    assert ([a] + rest)[1..] == rest;
  }

  lemma SignCombine(neg: bool, x: int, f: Option<int>)
    ensures ScaleAdd(Sign(neg, x), ScaleOpt(!neg, f)) == ScaleOpt(neg, ScaleAdd(x, ScaleOpt(true, f)))
  {
  }

  /** The base case: the first difference row is already all zero. */
  lemma ReverseForwardBase(neg: bool, w: seq<int>)
    requires AllZero(Diffs(w))
    ensures Forward(Scale(neg, Reverse(w))) == ScaleOpt(neg, Backward(w))
  {
    var u := Scale(neg, Reverse(w));
    DiffsOfReverse(neg, w);
    AllZeroScaleReverse(!neg, Diffs(w));
    if |w| >= 1 {
      assert u[|u| - 1] == Sign(neg, w[0]);
    }
    FlatEnds(neg, u, w);
  }

  /** Two rows whose difference rows are zero, the first ending in the second's start (negated when `neg`). */
  lemma FlatEnds(neg: bool, u: seq<int>, w: seq<int>)
    requires AllZero(Diffs(u)) && AllZero(Diffs(w)) && |u| == |w|
    requires |w| >= 1 ==> u[|u| - 1] == Sign(neg, w[0])
    ensures Forward(u) == ScaleOpt(neg, Backward(w))
  {
    var du, dw := Diffs(u), Diffs(w);
    assert Forward(u) == SumLasts([u, du]) by { assert Table(u) == [u, du]; }
    assert Backward(w) == FoldFirsts([w, dw]) by { assert Table(w) == [w, dw]; }
    TwoRows(u, du);
    TwoRows(w, dw);
    if |w| >= 2 {
      assert du[|du| - 1] == 0 && dw[0] == 0;
    }
  }

  lemma {:induction false} ReverseForward(neg: bool, w: seq<int>)
    ensures Forward(Scale(neg, Reverse(w))) == ScaleOpt(neg, Backward(w))
    decreases |w|
  {
    if AllZero(Diffs(w)) {
      ReverseForwardBase(neg, w);
    } else {
      var u := Scale(neg, Reverse(w));
      DiffsOfReverse(neg, w);
      var du := Diffs(u);
      var dw := Diffs(w);
      AllZeroScaleReverse(!neg, dw);
      assert Table(u) == [u] + Table(du) && Table(w) == [w] + Table(dw);
      ReverseForward(!neg, dw);
      assert SumLasts(Table(du)) == ScaleOpt(!neg, FoldFirsts(Table(dw)));
      ConsRow(u, Table(du));
      ConsRow(w, Table(dw));
      assert u[|u| - 1] == Sign(neg, w[0]);
      SignCombine(neg, w[0], FoldFirsts(Table(dw)));
    }
  }

  /** The previous value is the next value of the reversed row. */
  lemma BackwardIsReversedForward(v: seq<int>)
    ensures Backward(v) == Forward(Reverse(v))
  {
    ReverseForward(false, v);
    assert Scale(false, Reverse(v)) == Reverse(v);
  }

  lemma TwoRows(a: seq<int>, b: seq<int>)
    ensures SumLasts([a, b]) == if a == [] || b == [] then None else Some(a[|a| - 1] + b[|b| - 1])
    ensures FoldFirsts([a, b]) == if a == [] || b == [] then None else Some(a[0] - b[0])
  {
    assert [a, b][1..] == [b];
    assert [b][1..] == [];
    assert SumLasts([]) == Some(0) && FoldFirsts([]) == Some(0);
    assert SumLasts([b]) == if b == [] then None else Some(b[|b| - 1] + 0);
    assert FoldFirsts([b]) == if b == [] then None else Some(b[0] - 0);
  }

  /** A constant row of length at least two extrapolates to the same constant both ways. */
  lemma ConstantRow(v: seq<int>, k: int)
    requires |v| >= 2 && forall i :: 0 <= i < |v| ==> v[i] == k
    ensures Forward(v) == Some(k) && Backward(v) == Some(k)
  {
    assert Table(v) == [v, Diffs(v)];
    TwoRows(v, Diffs(v));
  }

  // ---------------------------------------------------------------------
  // The source's loops
  // ---------------------------------------------------------------------

  method DiffRow(cur: seq<int>) returns (d: seq<int>)
    ensures d == Diffs(cur)
  {
    d := [];
    if |cur| == 0 {
      return;
    }
    for i := 1 to |cur|
      invariant |d| == i - 1 && forall k :: 0 <= k < i - 1 ==> d[k] == cur[k + 1] - cur[k]
    {
      d := d + [cur[i] - cur[i - 1]];
    }
  }

  /** Builds the table row by row until a row is all zero. */
  method BuildTable(v: seq<int>) returns (rows: seq<seq<int>>)
    ensures rows == Table(v)
  {
    rows := [v];
    var last := v;
    ghost var done: seq<seq<int>> := [];
    while true
      invariant rows == done + [last]
      invariant Table(v) == done + Table(last)
      decreases |last|
    {
      var cur := DiffRow(last);
      TableStep(v, done, last);
      rows := rows + [cur];
      done := done + [last];
      if AllZero(cur) {
        return;
      }
      last := cur;
    }
  }

  /** One turn of the loop: the rows built so far, the last row and its difference row. */
  lemma TableStep(v: seq<int>, done: seq<seq<int>>, last: seq<int>)
    requires Table(v) == done + Table(last)
    ensures AllZero(Diffs(last)) ==> Table(v) == done + [last] + [Diffs(last)]
    ensures !AllZero(Diffs(last)) ==> Table(v) == (done + [last]) + Table(Diffs(last)) && |Diffs(last)| < |last|
  {
    var d := Diffs(last);
    if AllZero(d) {
      assert Table(last) == [last, d];
      assert done + [last, d] == done + [last] + [d];
    } else {
      assert Table(last) == [last] + Table(d);
      assert done + ([last] + Table(d)) == (done + [last]) + Table(d);
    }
  }

  /** `get_next_num`: the extrapolated next value, or the previous one when `rev`. */
  method GetNextNum(v: seq<int>, rev: bool) returns (r: Option<int>)
    ensures r == Extrapolate(v, rev)
  {
    var rows := BuildTable(v);
    if rev {
      r := FoldRowFirsts(rows);
    } else {
      r := SumRowLasts(rows);
    }
  }

  /** The backward loop: from the bottom row up, `acc := first - acc`. */
  method FoldRowFirsts(rows: seq<seq<int>>) returns (r: Option<int>)
    ensures r == FoldFirsts(rows)
  {
    var acc := 0;
    var i := |rows|;
    while i > 0
      invariant 0 <= i <= |rows| && FoldFirsts(rows[i..]) == Some(acc)
    {
      i := i - 1;
      assert rows[i..][1..] == rows[i + 1..];
      if rows[i] == [] {
        FoldFirstsEmptyRow(rows, i);
        return None;
      }
      acc := rows[i][0] - acc;
    }
    assert rows[0..] == rows;
    return Some(acc);
  }

  /** The forward loop: the sum of the rows' last entries. */
  method SumRowLasts(rows: seq<seq<int>>) returns (r: Option<int>)
    ensures r == SumLasts(rows)
  {
    var acc := 0;
    for i := 0 to |rows|
      invariant SumLasts(rows) == ScaleAdd(acc, SumLasts(rows[i..]))
    {
      assert rows[i..][1..] == rows[i + 1..];
      if rows[i] == [] {
        return None;
      }
      acc := acc + rows[i][|rows[i]| - 1];
    }
    assert rows[|rows|..] == [];
    return Some(acc);
  }

  function ScaleAdd(a: int, o: Option<int>): Option<int>
  {
    if o.None? then None else Some(a + o.value)
  }

  lemma {:induction false} FoldFirstsEmptyRow(rows: seq<seq<int>>, i: nat)
    requires i < |rows| && rows[i] == []
    ensures FoldFirsts(rows) == None
  {
    if i > 0 {
      FoldFirstsEmptyRow(rows[1..], i - 1);
    }
  }

  // ---------------------------------------------------------------------
  // Parsing and the two parts
  // ---------------------------------------------------------------------

  function ParseInts(tokens: seq<string>): (r: Option<seq<int>>)
    ensures r.Some? ==> |r.value| == |tokens| && forall i :: 0 <= i < |tokens| ==> ParseInt(tokens[i]) == Some(r.value[i])
    ensures r.None? ==> exists i :: 0 <= i < |tokens| && ParseInt(tokens[i]).None?
  {
    if tokens == [] then Some([])
    else match (ParseInt(tokens[0]), ParseInts(tokens[1..]))
      case (Some(x), Some(xs)) => Some([x] + xs)
      case (None, _) => None
      case (_, None) => None
  }

  /** One line: whitespace-separated integers; a bad token is a panic. */
  function ParseRow(line: string): Option<seq<int>>
  {
    ParseInts(SplitWhitespace(line))
  }

  function ParseSpec(lines: seq<string>): (r: Option<seq<seq<int>>>)
    ensures r.None? <==> exists i :: 0 <= i < |lines| && ParseRow(lines[i]).None?
    ensures r.Some? ==> |r.value| == |lines| && forall i :: 0 <= i < |lines| ==> ParseRow(lines[i]) == Some(r.value[i])
  {
    if lines == [] then Some([])
    else
      var init := lines[..|lines| - 1];
      assert forall i :: 0 <= i < |init| ==> init[i] == lines[i];
      match (ParseSpec(init), ParseRow(lines[|lines| - 1]))
      case (Some(rows), Some(row)) => Some(rows + [row])
      case _ => None
  }

  /** The source's loop over the lines. */
  method ParseLines(lines: seq<string>) returns (r: Option<seq<seq<int>>>)
    ensures r == ParseSpec(lines)
  {
    var rows: seq<seq<int>> := [];
    for k := 0 to |lines|
      invariant ParseSpec(lines[..k]) == Some(rows)
    {
      assert lines[..k + 1][..k] == lines[..k];
      var row := ParseRow(lines[k]);
      if row.None? {
        assert lines[k] == lines[..k + 1][k];
        assert ParseSpec(lines[..k + 1]).None?;
        return None;
      }
      rows := rows + [row.value];
    }
    assert lines[..|lines|] == lines;
    return Some(rows);
  }

  function Extrapolate(v: seq<int>, rev: bool): Option<int>
  {
    if rev then Backward(v) else Forward(v)
  }

  /** The sum of the extrapolated values over all rows. */
  function SumOf(rows: seq<seq<int>>, rev: bool): Option<int>
  {
    if rows == [] then Some(0)
    else match (Extrapolate(rows[0], rev), SumOf(rows[1..], rev))
      case (Some(x), Some(s)) => Some(x + s)
      case _ => None
  }

  lemma SumOfStep(rows: seq<seq<int>>, i: nat, rev: bool)
    requires i < |rows|
    ensures SumOf(rows[i..], rev) == match Extrapolate(rows[i], rev)
      case None => None
      case Some(x) => ScaleAdd(x, SumOf(rows[i + 1..], rev))
  {
    assert rows[i..][1..] == rows[i + 1..];
  }

  /** The sum over the rows (the iterator `map(..).sum()`). */
  method SumRows(rows: seq<seq<int>>, rev: bool) returns (r: Option<int>)
    ensures r == SumOf(rows, rev)
  {
    var total := 0;
    for i := 0 to |rows|
      invariant SumOf(rows, rev) == ScaleAdd(total, SumOf(rows[i..], rev))
    {
      SumOfStep(rows, i, rev);
      var x := GetNextNum(rows[i], rev);
      if x.None? {
        return None;
      }
      total := total + x.value;
    }
    assert rows[|rows|..] == [];
    return Some(total);
  }

  /** Part 1 (rev false) and part 2 (rev true). */
  method Solve(lines: seq<string>, rev: bool) returns (r: Option<int>)
    ensures ParseSpec(lines).None? ==> r.None?
    ensures ParseSpec(lines).Some? ==> r == SumOf(ParseSpec(lines).value, rev)
  {
    var parsed := ParseLines(lines);
    if parsed.None? {
      return None;
    }
    r := SumRows(parsed.value, rev);
  }

  /** Summing reversed rows forwards gives the part-2 answer. */
  lemma {:induction false} Part2ByReversal(rows: seq<seq<int>>)
    ensures SumOf(rows, true) == SumOf(seq(|rows|, i requires 0 <= i < |rows| => Reverse(rows[i])), false)
  {
    if rows != [] {
      var revs := seq(|rows|, i requires 0 <= i < |rows| => Reverse(rows[i]));
      BackwardIsReversedForward(rows[0]);
      Part2ByReversal(rows[1..]);
      assert revs[1..] == seq(|rows[1..]|, i requires 0 <= i < |rows[1..]| => Reverse(rows[1..][i]));
    }
  }
}
