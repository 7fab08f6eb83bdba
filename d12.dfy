/**
 * Day 12: hot springs. Each line holds a row of springs ('.' working,
 * '#' damaged, anything else unknown) and the sizes of the contiguous groups
 * of damaged springs, e.g. `???.### 1,1,3`. The answer counts the ways to
 * fill in the unknown springs so that the damaged groups are exactly the
 * recorded ones. Part 2 first unfolds each line into five copies.
 */
module D12 {
  import opened Wrappers
  import opened Text

  // ---------------------------------------------------------------------
  // Group records
  // ---------------------------------------------------------------------

  /** Every piece parsed as a `usize`; None when one of them is not a number. */
  function ParseAll(parts: seq<string>): (r: Option<seq<nat>>)
    ensures r.Some? <==> forall i :: 0 <= i < |parts| ==> ParseNat(parts[i]).Some?
    ensures r.Some? ==> |r.value| == |parts| && forall i :: 0 <= i < |parts| ==> ParseNat(parts[i]) == Some(r.value[i])
  {
    if parts == [] then Some([])
    else match (ParseNat(parts[0]), ParseAll(parts[1..]))
      case (Some(v), Some(vs)) => Some([v] + vs)
      case _ => None
  }

  /** The group sizes of a record such as "1,1,3"; the empty record has no groups. */
  function ParseRecords(records: string): Option<seq<nat>>
  {
    if records == "" then Some([]) else ParseAll(Split(records, ','))
  }

  function NatStrings(g: seq<nat>): (r: seq<string>)
    ensures |r| == |g| && forall i :: 0 <= i < |g| ==> r[i] == NatToString(g[i])
  {
    if g == [] then [] else [NatToString(g[0])] + NatStrings(g[1..])
  }

  /** `.map(|x| x.to_string()).collect().join(",")`: how the recursion passes on the remaining groups. */
  function RecordsString(g: seq<nat>): string
  {
    Join(NatStrings(g), ',')
  }

  lemma {:induction false} JoinNonEmpty(parts: seq<string>, sep: char)
    requires |parts| >= 1 && |parts[0]| > 0
    ensures |Join(parts, sep)| > 0
  {
  }

  /** Printing the groups and parsing them again gives the same groups. */
  lemma RecordsRoundTrip(g: seq<nat>)
    ensures ParseRecords(RecordsString(g)) == Some(g)
  {
    if g != [] {
      var parts := NatStrings(g);
      JoinNonEmpty(parts, ',');
      forall i | 0 <= i < |parts|
        ensures ',' !in parts[i] && ParseNat(parts[i]) == Some(g[i])
      {
        ParseNatToString(g[i]);
      }
      SplitJoin(parts, ',');
      assert RecordsString(g) != "";
      assert ParseRecords(RecordsString(g)) == ParseAll(parts);
      var r := ParseAll(parts).value;
      assert forall i :: 0 <= i < |g| ==> r[i] == g[i];
      assert r == g;
    } else {
      assert RecordsString(g) == "";
    }
  }

  // ---------------------------------------------------------------------
  // Counting arrangements
  // ---------------------------------------------------------------------

  function Sum(g: seq<nat>): nat
  {
    if g == [] then 0 else g[0] + Sum(g[1..])
  }

  /** Any character other than '.' and '#' is an unknown spring. */
  predicate IsUnknown(c: char)
  {
    c != '.' && c != '#'
  }

  /**
   * `find_num_arrangements` on the parsed groups: peel off a working spring,
   * a whole damaged group with its separator, or split an unknown spring
   * into both cases.
   */
  function Count(s: string, g: seq<nat>): (r: nat)
    ensures r <= Pow2(Unknowns(s))
    decreases |s|, if |s| > 0 && IsUnknown(s[0]) then 1 else 0
  {
    if s == [] then (if g == [] then 1 else 0)
    else if g == [] then (if '#' in s then 0 else 1)
    else if |s| < Sum(g) + |g| - 1 then 0
    else if s[0] == '.' then Count(s[1..], g)
    else if s[0] == '#' then
      var f := g[0];
      if '.' in s[..f] then 0
      else if f < |s| && s[f] == '#' then 0
      else
        var rest := if f < |s| then s[f + 1..] else "";
        UnknownsSuffix(s, |s| - |rest|);
        assert s[|s| - |rest|..] == rest;
        Pow2Monotone(Unknowns(rest), Unknowns(s));
        Count(rest, g[1..])
    else
      assert ("#" + s[1..])[1..] == s[1..] && ("." + s[1..])[1..] == s[1..];
      Count("#" + s[1..], g) + Count("." + s[1..], g)
  }

  /** The number of unknown springs. */
  function Unknowns(s: string): nat
  {
    if s == [] then 0 else (if IsUnknown(s[0]) then 1 else 0) + Unknowns(s[1..])
  }

  function Pow2(n: nat): (r: nat)
    ensures r >= 1
  {
    if n == 0 then 1 else 2 * Pow2(n - 1)
  }

  /** Dropping springs from the front never adds unknown ones. */
  lemma {:induction false} UnknownsSuffix(s: string, k: nat)
    requires k <= |s|
    ensures Unknowns(s[k..]) <= Unknowns(s)
  {
    if k > 0 {
      assert s[1..][k - 1..] == s[k..];
      UnknownsSuffix(s[1..], k - 1);
    }
  }

  lemma {:induction false} Pow2Monotone(a: nat, b: nat)
    requires a <= b
    ensures Pow2(a) <= Pow2(b)
    decreases b
  {
    if a < b {
      Pow2Monotone(a, b - 1);
    }
  }

  /** `find_num_arrangements` on the record text: None where a record is not a number. */
  function FindNumArrangements(spring: string, records: string): (r: Option<nat>)
    ensures r.Some? <==> ParseRecords(records).Some?
    ensures r.Some? ==> r.value == Ways(spring, ParseRecords(records).value, 0)
  {
    match ParseRecords(records)
    case None => None
    case Some(g) =>
      CountIsWays(spring, g);
      Some(Count(spring, g))
  }

  /** The recursive calls pass the remaining groups as text, and that text parses back to them. */
  lemma ReparsedTail(s: string, g: seq<nat>)
    ensures FindNumArrangements(s, RecordsString(g)) == Some(Count(s, g))
  {
    RecordsRoundTrip(g);
  }

  /**
   * The reference count: scan left to right, filling each unknown spring
   * with '#' or '.', where r is the length of the damaged run in progress,
   * matched against g[0]. It counts the fillings whose damaged runs are
   * exactly g.
   */
  function Ways(s: string, g: seq<nat>, r: nat): nat
    decreases |s|
  {
    if s == [] then
      (if r == 0 then (if g == [] then 1 else 0) else (if |g| == 1 && g[0] == r then 1 else 0))
    else
      var damaged := if s[0] == '.' || g == [] || r + 1 > g[0] then 0 else Ways(s[1..], g, r + 1);
      var working :=
        if s[0] == '#' then 0
        else if r == 0 then Ways(s[1..], g, 0)
        else if g != [] && r == g[0] then Ways(s[1..], g[1..], 0)
        else 0;
      damaged + working
  }

  /** Without groups, only the all-working filling counts, and only if no spring is known damaged. */
  lemma {:induction false} WaysNoGroups(s: string)
    ensures Ways(s, [], 0) == if '#' in s then 0 else 1
  {
    if s != [] {
      WaysNoGroups(s[1..]);
      assert '#' in s <==> s[0] == '#' || '#' in s[1..];
    }
  }

  /** A row too short for the groups and their separators has no filling. */
  lemma {:induction false} WaysShort(s: string, g: seq<nat>, r: nat)
    requires g != [] && |s| + r < Sum(g) + |g| - 1
    ensures Ways(s, g, r) == 0
  {
    if s != [] {
      if s[0] != '.' && r + 1 <= g[0] {
        WaysShort(s[1..], g, r + 1);
      }
      if s[0] != '#' {
        if r == 0 {
          WaysShort(s[1..], g, 0);
        } else if r == g[0] && |g| > 1 {
          WaysShort(s[1..], g[1..], 0);
        }
      }
    }
  }

  /**
   * Inside a damaged run of length r (0 < r <= g[0]): the next g[0] - r
   * springs must be damaged and the one after working (or the row ends);
   * the count then continues with the remaining groups.
   */
  lemma {:induction false} WaysBlock(s: string, g: seq<nat>, r: nat)
    requires g != [] && 0 < r <= g[0] && g[0] - r <= |s|
    ensures var k := g[0] - r;
      Ways(s, g, r) ==
        if '.' in s[..k] then 0
        else if k < |s| && s[k] == '#' then 0
        else Ways(if k < |s| then s[k + 1..] else "", g[1..], 0)
    decreases g[0] - r
  {
    var k := g[0] - r;
    if k > 0 {
      WaysBlock(s[1..], g, r + 1);
      assert s[1..][..k - 1] == s[1..k];
      assert '.' in s[..k] <==> s[0] == '.' || '.' in s[1..k];
      if k < |s| {
        assert s[1..][k - 1 + 1..] == s[k + 1..];
      }
    } else if s != [] {
      assert s[..k] == [];
    }
  }

  /** `find_num_arrangements` counts exactly the fillings the reference scan counts. */
  lemma {:induction false} CountIsWays(s: string, g: seq<nat>)
    ensures Count(s, g) == Ways(s, g, 0)
    decreases |s|, if |s| > 0 && IsUnknown(s[0]) then 1 else 0
  {
    if s == [] {
    } else if g == [] {
      WaysNoGroups(s);
    } else if |s| < Sum(g) + |g| - 1 {
      WaysShort(s, g, 0);
    } else if s[0] == '.' {
      CountIsWays(s[1..], g);
    } else if s[0] == '#' {
      var f := g[0];
      if f == 0 {
        assert Ways(s, g, 0) == 0;
      } else {
        var t := s[1..];
        WaysBlock(t, g, 1);
        assert t[..f - 1] == s[1..f];
        assert '.' in s[..f] <==> '.' in t[..f - 1];
        if f < |s| {
          assert t[f..] == s[f + 1..];
          CountIsWays(s[f + 1..], g[1..]);
        } else {
          CountIsWays("", g[1..]);
        }
      }
    } else {
      CountIsWays("#" + s[1..], g);
      CountIsWays("." + s[1..], g);
      assert ("#" + s[1..])[1..] == s[1..] && ("." + s[1..])[1..] == s[1..];
    }
  }

  /** There are at most 2^u fillings of u unknown springs. */
  lemma {:induction false} WaysBound(s: string, g: seq<nat>, r: nat)
    ensures Ways(s, g, r) <= Pow2(Unknowns(s))
    decreases |s|
  {
    if s != [] {
      WaysBound(s[1..], g, r + 1);
      WaysBound(s[1..], g, 0);
      if g != [] {
        WaysBound(s[1..], g[1..], 0);
      }
    }
  }

  // ---------------------------------------------------------------------
  // Unfolding (part 2)
  // ---------------------------------------------------------------------

  /** n copies of s. */
  function Copies(s: string, n: nat): (r: seq<string>)
    ensures |r| == n && forall i :: 0 <= i < n ==> r[i] == s
  {
    if n == 0 then [] else [s] + Copies(s, n - 1)
  }

  /** Five copies of the springs joined by '?', five copies of the record joined by ','. */
  function Unfolded(spring: string, record: string): (string, string)
  {
    (Join(Copies(spring, 5), '?'), Join(Copies(record, 5), ','))
  }

  lemma {:induction false} JoinCopiesSnoc(s: string, sep: char, n: nat)
    requires n >= 1
    ensures Join(Copies(s, n + 1), sep) == Join(Copies(s, n), sep) + [sep] + s
  {
    if n > 1 {
      JoinCopiesSnoc(s, sep, n - 1);
      assert Copies(s, n + 1)[1..] == Copies(s, n);
      assert Copies(s, n)[1..] == Copies(s, n - 1);
    } else {
      assert Copies(s, 2)[1..] == [s];
    }
  }

  /** `dup_spring_and_record`: append a separator and a copy, four times. */
  method DupSpringAndRecord(spring: string, record: string) returns (newSpring: string, newRecord: string)
    ensures (newSpring, newRecord) == Unfolded(spring, record)
  {
    newSpring := spring;
    newRecord := record;
    for k := 0 to 4
      invariant newSpring == Join(Copies(spring, k + 1), '?')
      invariant newRecord == Join(Copies(record, k + 1), ',')
    {
      newSpring := newSpring + ['?'] + spring;
      newRecord := newRecord + [','] + record;
      JoinCopiesSnoc(spring, '?', k + 1);
      JoinCopiesSnoc(record, ',', k + 1);
    }
  }

  /** The unfolded row is five times as long plus the four separators. */
  lemma {:induction false} JoinCopiesLength(s: string, sep: char, n: nat)
    requires n >= 1
    ensures |Join(Copies(s, n), sep)| == n * |s| + n - 1
  {
    if n > 1 {
      JoinCopiesLength(s, sep, n - 1);
      assert Copies(s, n)[1..] == Copies(s, n - 1);
    }
  }

  /** g repeated n times. */
  function Repeat(g: seq<nat>, n: nat): seq<nat>
  {
    if n == 0 then [] else g + Repeat(g, n - 1)
  }

  lemma ParseAllAppend(a: seq<string>, b: seq<string>)
    requires ParseAll(a).Some? && ParseAll(b).Some?
    ensures ParseAll(a + b) == Some(ParseAll(a).value + ParseAll(b).value)
  {
    var x, y := ParseAll(a).value, ParseAll(b).value;
    var ab := a + b;
    forall i | 0 <= i < |ab|
      ensures ParseNat(ab[i]) == Some((x + y)[i])
    {
      if i < |a| {
        assert ab[i] == a[i];
      } else {
        assert ab[i] == b[i - |a|];
      }
    }
    var z := ParseAll(ab).value;
    assert |z| == |x + y|;
    assert forall i :: 0 <= i < |z| ==> z[i] == (x + y)[i];
    assert z == x + y;
  }

  /** A non-empty record, unfolded n times, parses to its groups repeated n times. */
  lemma {:induction false} UnfoldedRecords(record: string, g: seq<nat>, n: nat)
    requires n >= 1 && record != "" && ParseRecords(record) == Some(g)
    ensures ParseRecords(Join(Copies(record, n), ',')) == Some(Repeat(g, n))
  {
    if n > 1 {
      UnfoldedRecords(record, g, n - 1);
      var rest := Join(Copies(record, n - 1), ',');
      assert Copies(record, n)[1..] == Copies(record, n - 1);
      assert Join(Copies(record, n), ',') == record + [','] + rest;
      SplitAppend(record, ',', rest);
      JoinNonEmpty(Copies(record, n - 1), ',');
      ParseAllAppend(Split(record, ','), Split(rest, ','));
      assert Repeat(g, n - 1) == Repeat(g, n)[|g|..];
    } else {
      assert Join(Copies(record, 1), ',') == record;
      assert Repeat(g, 1) == g;
    }
  }

  // ---------------------------------------------------------------------
  // The puzzle
  // ---------------------------------------------------------------------

  /** `parse_lines`: the first two whitespace-separated tokens of each line. */
  function ParseLine(line: string): (r: Option<(string, string)>)
    ensures r.Some? <==> |SplitWhitespace(line)| >= 2
  {
    var t := SplitWhitespace(line);
    if |t| < 2 then None else Some((t[0], t[1]))
  }

  function ParseRows(lines: seq<string>): (r: Option<seq<(string, string)>>)
    ensures r.Some? <==> forall i :: 0 <= i < |lines| ==> ParseLine(lines[i]).Some?
    ensures r.Some? ==> |r.value| == |lines| && forall i :: 0 <= i < |lines| ==> ParseLine(lines[i]) == Some(r.value[i])
  {
    if lines == [] then Some([])
    else match (ParseLine(lines[0]), ParseRows(lines[1..]))
      case (Some(row), Some(rows)) => Some([row] + rows)
      case _ => None
  }

  /** A row as the count sees it: unfolded first in part 2. */
  function Expand(row: (string, string), unfold: bool): (string, string)
  {
    if unfold then Unfolded(row.0, row.1) else row
  }

  /** Every row's (expanded) record is a number list. */
  predicate RecordsParse(rows: seq<(string, string)>, unfold: bool)
  {
    forall i :: 0 <= i < |rows| ==> ParseRecords(Expand(rows[i], unfold).1).Some?
  }

  /** The reference answer: the fillings of every row, summed. */
  function WaysSum(rows: seq<(string, string)>, unfold: bool): nat
    requires RecordsParse(rows, unfold)
  {
    if rows == [] then 0
    else
      var (spring, record) := Expand(rows[0], unfold);
      Ways(spring, ParseRecords(record).value, 0) + WaysSum(rows[1..], unfold)
  }

  /** The sum of the counts of the rows, each unfolded first in part 2. */
  function Total(rows: seq<(string, string)>, unfold: bool): (r: Option<nat>)
    ensures r.Some? <==> RecordsParse(rows, unfold)
    ensures r.Some? ==> r.value == WaysSum(rows, unfold)
  {
    if rows == [] then Some(0)
    else
      var (spring, record) := Expand(rows[0], unfold);
      match (FindNumArrangements(spring, record), Total(rows[1..], unfold))
      case (Some(c), Some(t)) => Some(c + t)
      case _ => None
  }

  /** Part 1: the number of arrangements of every row, summed; None where a line or a record does not parse. */
  function P1(lines: seq<string>): (r: Option<nat>)
    ensures r.Some? <==> ParseRows(lines).Some? && RecordsParse(ParseRows(lines).value, false)
    ensures r.Some? ==> r.value == WaysSum(ParseRows(lines).value, false)
  {
    match ParseRows(lines)
    case None => None
    case Some(rows) => Total(rows, false)
  }

  /** Part 2: the same on every row unfolded five times. */
  function P2(lines: seq<string>): (r: Option<nat>)
    ensures r.Some? <==> ParseRows(lines).Some? && RecordsParse(ParseRows(lines).value, true)
    ensures r.Some? ==> r.value == WaysSum(ParseRows(lines).value, true)
  {
    match ParseRows(lines)
    case None => None
    case Some(rows) => Total(rows, true)
  }

  /** Part 2 fails exactly where a row's record fails to parse or is empty (",,,," is not a number list). */
  lemma P2Records(record: string, g: seq<nat>)
    requires ParseRecords(record) == Some(g)
    ensures record != "" ==> ParseRecords(Unfolded("", record).1) == Some(Repeat(g, 5))
    ensures record == "" ==> ParseRecords(Unfolded("", record).1).None?
  {
    if record != "" {
      UnfoldedRecords(record, g, 5);
    } else {
      var joined := Join(Copies(record, 5), ',');
      assert Copies(record, 5)[1..] == Copies(record, 4);
      assert joined == [','] + Join(Copies(record, 4), ',');
      assert IndexOf(joined, ',') == 0;
      assert Split(joined, ',')[0] == "";
    }
  }
}
