/**
 * Day 3: the engine schematic. Each row is cut into tokens: a run of digits
 * is a number, any other character except '.' is a symbol. Part 1 sums the
 * numbers next to a symbol in the same or a neighbouring row; part 2 sums,
 * over the '*' symbols next to exactly two numbers, the product of the two.
 *
 * `fixed` selects the corrected behaviour described in the findings: a
 * number ending in the last column keeps its true span, and a number is next
 * to a symbol when any of its digits is. Without it this is the source as
 * written.
 */
module D3 {
  import opened Wrappers
  import opened Text

  /** A token: its first and last column and its text. */
  datatype Token = Token(start: int, end: int, text: string)

  predicate IsSymbolChar(c: char)
  {
    !IsDigit(c) && c != '.'
  }

  /** `is_digit`: the first character is a decimal digit; false on the empty string. */
  predicate IsNumber(t: Token)
  {
    |t.text| > 0 && IsDigit(t.text[0])
  }

  // ---------------------------------------------------------------------
  // The tokenizer
  // ---------------------------------------------------------------------

  /**
   * One character of the scan at column j: a digit grows the current run;
   * a symbol becomes a token; a non-digit, or the column width - 1, closes
   * the run. As written the closed run always ends at j - 1.
   */
  function Step(toks: seq<Token>, cur: string, ch: char, j: int, width: int, fixed: bool): (seq<Token>, string)
  {
    var digit := IsDigit(ch);
    var cur1 := if digit then cur + [ch] else cur;
    var toks1 := if !digit && ch != '.' then toks + [Token(j, j, [ch])] else toks;
    if !digit || j == width - 1 then
      var last := if fixed && digit then j else j - 1;
      (if cur1 != [] then toks1 + [Token(last - |cur1| + 1, last, cur1)] else toks1, "")
    else (toks1, cur1)
  }

  /** The tokens and the open run after the first k characters. */
  function Scan(line: string, k: nat, width: int, fixed: bool): (seq<Token>, string)
    requires k <= |line|
  {
    if k == 0 then ([], "")
    else
      var (toks, cur) := Scan(line, k - 1, width, fixed);
      Step(toks, cur, line[k - 1], k - 1, width, fixed)
  }

  /** The tokens of one row; width is the length of the first row. */
  function LineTokens(line: string, width: int, fixed: bool): seq<Token>
  {
    Scan(line, |line|, width, fixed).0
  }

  /** A number token whose span holds exactly its digits. */
  predicate NumberAt(line: string, t: Token)
  {
    0 <= t.start <= t.end < |line| && t.text == line[t.start..t.end + 1] && AllDigits(t.text)
  }

  /** A symbol token at its own column. */
  predicate SymbolAt(line: string, t: Token)
  {
    0 <= t.start == t.end < |line| && t.text == [line[t.start]] && IsSymbolChar(line[t.start])
  }

  /** A single symbol character, or a non-empty run of digits. */
  predicate WellFormed(t: Token)
  {
    (|t.text| == 1 && IsSymbolChar(t.text[0]) && t.start == t.end) ||
    (|t.text| > 0 && AllDigits(t.text) && t.end - t.start + 1 == |t.text|)
  }

  /** What holds of the scan after k characters. */
  ghost predicate ScanInv(line: string, k: nat, toks: seq<Token>, cur: string, fixed: bool)
    requires k <= |line|
  {
    && |cur| <= k && cur == line[k - |cur|..k] && AllDigits(cur)
    && TokensOk(line, toks, fixed)
    && (forall j :: 0 <= j < k && IsSymbolChar(line[j]) ==> Token(j, j, [line[j]]) in toks)
    && (fixed ==> forall j :: 0 <= j < k - |cur| && IsDigit(line[j]) ==> Covered(line, toks, j))
  }

  /** Every token is well formed and every symbol token sits at its column; fixed, every token matches the row. */
  predicate TokensOk(line: string, toks: seq<Token>, fixed: bool)
  {
    && (forall t :: t in toks ==> WellFormed(t))
    && (fixed ==> forall t :: t in toks ==> NumberAt(line, t) || SymbolAt(line, t))
    && (forall t :: t in toks && !IsNumber(t) ==> SymbolAt(line, t))
  }

  ghost predicate Covered(line: string, toks: seq<Token>, j: int)
  {
    exists t :: t in toks && NumberAt(line, t) && t.start <= j <= t.end
  }

  /** The run extended by one digit is still the slice just before the scan position. */
  lemma ExtendRun(line: string, k: nat, cur: string)
    requires k < |line| && |cur| <= k && cur == line[k - |cur|..k] && AllDigits(cur) && IsDigit(line[k])
    ensures cur + [line[k]] == line[k + 1 - |cur + [line[k]]|..k + 1] && AllDigits(cur + [line[k]])
  {
  }

  /** A digit before the last column only grows the run. */
  lemma StepGrow(line: string, k: nat, toks: seq<Token>, cur: string, fixed: bool)
    requires k < |line| && ScanInv(line, k, toks, cur, fixed) && IsDigit(line[k])
    ensures ScanInv(line, k + 1, toks, cur + [line[k]], fixed)
  {
    ExtendRun(line, k, cur);
  }

  /** A symbol is added at its own column. */
  lemma StepSymbol(line: string, k: nat, toks: seq<Token>, cur: string, fixed: bool)
    requires k < |line| && ScanInv(line, k, toks, cur, fixed) && !IsDigit(line[k])
    ensures var toks1 := if line[k] != '.' then toks + [Token(k, k, [line[k]])] else toks;
      && TokensOk(line, toks1, fixed)
      && (forall j :: 0 <= j <= k && IsSymbolChar(line[j]) ==> Token(j, j, [line[j]]) in toks1)
      && (fixed ==> forall j :: 0 <= j < k - |cur| && IsDigit(line[j]) ==> Covered(line, toks1, j))
  {
    var toks1 := if line[k] != '.' then toks + [Token(k, k, [line[k]])] else toks;
    if line[k] != '.' {
      assert SymbolAt(line, Token(k, k, [line[k]]));
      assert forall t :: t in toks1 ==> t in toks || t == Token(k, k, [line[k]]);
      forall j | 0 <= j < k - |cur| && IsDigit(line[j]) && fixed
        ensures Covered(line, toks1, j)
      {
        var u :| u in toks && NumberAt(line, u) && u.start <= j <= u.end;
        assert u in toks1;
      }
    }
  }

  /** Closing a run: the digits line[k + 1 - |run|..k + 1] (or up to k when the run ended before k). */
  lemma StepClose(line: string, k: nat, toks: seq<Token>, run: string, last: int, fixed: bool)
    requires k < |line| && TokensOk(line, toks, fixed)
    requires run != [] && AllDigits(run) && last <= k
    requires fixed ==> |run| <= last + 1 && run == line[last + 1 - |run|..last + 1]
    requires fixed ==> forall j :: 0 <= j < k + 1 && IsDigit(line[j]) && !(last + 1 - |run| <= j <= last) ==> Covered(line, toks, j)
    requires forall j :: 0 <= j <= k && IsSymbolChar(line[j]) ==> Token(j, j, [line[j]]) in toks
    ensures ScanInv(line, k + 1, toks + [Token(last - |run| + 1, last, run)], [], fixed)
  {
    var t := Token(last - |run| + 1, last, run);
    var toks2 := toks + [t];
    assert forall u :: u in toks2 ==> u in toks || u == t;
    if fixed {
      assert NumberAt(line, t);
      forall j | 0 <= j < k + 1 && IsDigit(line[j])
        ensures Covered(line, toks2, j)
      {
        if last + 1 - |run| <= j <= last {
          assert t in toks2;
        } else {
          var u :| u in toks && NumberAt(line, u) && u.start <= j <= u.end;
          assert u in toks2;
        }
      }
    }
  }

  lemma StepDigit(line: string, k: nat, toks: seq<Token>, cur: string, width: int, fixed: bool)
    requires k < |line| && ScanInv(line, k, toks, cur, fixed) && IsDigit(line[k])
    ensures var (toks2, cur2) := Step(toks, cur, line[k], k, width, fixed); ScanInv(line, k + 1, toks2, cur2, fixed)
  {
    var run := cur + [line[k]];
    StepGrow(line, k, toks, cur, fixed);
    if k == width - 1 {
      var last := if fixed then k else k - 1;
      assert Step(toks, cur, line[k], k, width, fixed) == (toks + [Token(last - |run| + 1, last, run)], []);
      StepClose(line, k, toks, run, last, fixed);
    } else {
      assert Step(toks, cur, line[k], k, width, fixed) == (toks, run);
    }
  }

  lemma StepOther(line: string, k: nat, toks: seq<Token>, cur: string, width: int, fixed: bool)
    requires k < |line| && ScanInv(line, k, toks, cur, fixed) && !IsDigit(line[k])
    ensures var (toks2, cur2) := Step(toks, cur, line[k], k, width, fixed); ScanInv(line, k + 1, toks2, cur2, fixed)
  {
    var ch := line[k];
    StepSymbol(line, k, toks, cur, fixed);
    var toks1 := if ch != '.' then toks + [Token(k, k, [ch])] else toks;
    if cur != [] {
      StepClose(line, k, toks1, cur, k - 1, fixed);
      assert Step(toks, cur, ch, k, width, fixed) == (toks1 + [Token(k - 1 - |cur| + 1, k - 1, cur)], []);
    } else {
      assert Step(toks, cur, ch, k, width, fixed) == (toks1, []);
    }
  }

  /** One more character of the scan keeps the invariant. */
  lemma StepKeeps(line: string, k: nat, width: int, fixed: bool)
    requires k < |line| && ScanInv(line, k, Scan(line, k, width, fixed).0, Scan(line, k, width, fixed).1, fixed)
    ensures ScanInv(line, k + 1, Scan(line, k + 1, width, fixed).0, Scan(line, k + 1, width, fixed).1, fixed)
  {
    var toks, cur := Scan(line, k, width, fixed).0, Scan(line, k, width, fixed).1;
    assert Scan(line, k + 1, width, fixed) == Step(toks, cur, line[k], k, width, fixed);
    if IsDigit(line[k]) {
      StepDigit(line, k, toks, cur, width, fixed);
    } else {
      StepOther(line, k, toks, cur, width, fixed);
    }
  }

  lemma {:induction false} ScanFacts(line: string, k: nat, width: int, fixed: bool)
    requires k <= |line|
    ensures ScanInv(line, k, Scan(line, k, width, fixed).0, Scan(line, k, width, fixed).1, fixed)
  {
    if k > 0 {
      ScanFacts(line, k - 1, width, fixed);
      StepKeeps(line, k - 1, width, fixed);
    }
  }

  /** With the fix, every token is a symbol at its column or a run of digits at its true span. */
  lemma TokensMatchRow(line: string, width: int)
    ensures forall t :: t in LineTokens(line, width, true) ==> NumberAt(line, t) || SymbolAt(line, t)
  {
    ScanFacts(line, |line|, width, true);
  }

  /** Either way every token is a symbol or a non-empty digit run, and a non-number token is a symbol at its column. */
  lemma TokensWellFormed(line: string, width: int, fixed: bool)
    ensures forall t :: t in LineTokens(line, width, fixed) ==> WellFormed(t)
    ensures forall t :: t in LineTokens(line, width, fixed) && !IsNumber(t) ==> SymbolAt(line, t)
  {
    ScanFacts(line, |line|, width, fixed);
  }

  /** Every character that is neither a digit nor '.' yields the token (j, j, ch). */
  lemma SymbolsFound(line: string, width: int, fixed: bool)
    ensures forall j :: 0 <= j < |line| && IsSymbolChar(line[j]) ==> Token(j, j, [line[j]]) in LineTokens(line, width, fixed)
  {
    ScanFacts(line, |line|, width, fixed);
  }

  /** With the fix and the row as wide as the first row, every digit lies inside a number token. */
  lemma DigitsCovered(line: string)
    ensures forall j :: 0 <= j < |line| && IsDigit(line[j]) ==> Covered(line, LineTokens(line, |line|, true), j)
  {
    ScanFacts(line, |line|, |line|, true);
    if |line| > 0 {
      var (toks, cur) := Scan(line, |line| - 1, |line|, true);
      assert Scan(line, |line|, |line|, true).1 == [];
    }
  }

  /** `parse_engine`'s inner loop over one row, with the `cur_num` buffer. */
  method ParseLine(line: string, width: int, fixed: bool) returns (vv: seq<Token>)
    ensures vv == LineTokens(line, width, fixed)
  {
    var cur := "";
    vv := [];
    for j := 0 to |line|
      invariant (vv, cur) == Scan(line, j, width, fixed)
    {
      var ch := line[j];
      var digit := IsDigit(ch);
      if digit {
        cur := cur + [ch];
      } else if ch != '.' {
        vv := vv + [Token(j, j, [ch])];
      }
      if !digit || j == width - 1 {
        if cur != [] {
          var last := if fixed && digit then j else j - 1;
          vv := vv + [Token(last - |cur| + 1, last, cur)];
        }
        cur := "";
      }
    }
  }

  /** The tokens of every row, all cut with the first row's width; None for no rows. */
  function Engine(lines: seq<string>, fixed: bool): Option<seq<seq<Token>>>
  {
    if lines == [] then None
    else Some(seq(|lines|, i requires 0 <= i < |lines| => LineTokens(lines[i], |lines[0]|, fixed)))
  }

  /** `parse_engine`: panics on an empty schematic. */
  method ParseEngine(lines: seq<string>, fixed: bool) returns (r: Option<seq<seq<Token>>>)
    ensures r == Engine(lines, fixed)
  {
    if lines == [] {
      return None;
    }
    var width := |lines[0]|;
    var v: seq<seq<Token>> := [];
    for i := 0 to |lines|
      invariant |v| == i && forall p :: 0 <= p < i ==> v[p] == LineTokens(lines[p], width, fixed)
    {
      var vv := ParseLine(lines[i], width, fixed);
      v := v + [vv];
    }
    assert v == Engine(lines, fixed).value;
    r := Some(v);
  }

  // ---------------------------------------------------------------------
  // Adjacency
  // ---------------------------------------------------------------------

  /** Column x lies in the token's span. */
  predicate InSpan(x: int, t: Token)
  {
    t.start <= x <= t.end
  }

  /** The source's test: an endpoint of a, shifted by -1, 0 or +1, falls in b's span. */
  predicate EndpointHit(a: Token, b: Token)
  {
    Shifted(a, b, -1) || Shifted(a, b, 0) || Shifted(a, b, 1)
  }

  /** An endpoint of a, shifted by d, falls in b's span. */
  predicate Shifted(a: Token, b: Token, d: int)
  {
    InSpan(a.start + d, b) || InSpan(a.end + d, b)
  }

  /** Some cell of a is at most one column from some cell of b. */
  ghost predicate Near(a: Token, b: Token)
  {
    exists p, q :: InSpan(p, a) && InSpan(q, b) && -1 <= p - q <= 1
  }

  /** Part 1's test of a number against a symbol; fixed, any digit of the number counts. */
  predicate Touches(num: Token, sym: Token, fixed: bool)
  {
    if fixed then sym.start <= num.end + 1 && num.start - 1 <= sym.end else EndpointHit(num, sym)
  }

  /** The fixed test is exactly "some digit is next to the symbol". */
  lemma TouchesMeaning(num: Token, sym: Token)
    requires num.start <= num.end && sym.start <= sym.end
    ensures Touches(num, sym, true) <==> Near(num, sym)
  {
    if Touches(num, sym, true) {
      var p := if num.end < sym.start then num.end else if num.start > sym.end then num.start else (if num.start > sym.start then num.start else sym.start);
      var q := if num.end < sym.start then sym.start else if num.start > sym.end then sym.end else p;
      assert InSpan(p, num) && InSpan(q, sym);
    }
  }

  /** For a number of at most four digits the source's endpoint test agrees with the fixed one. */
  lemma EndpointShort(num: Token, sym: Token)
    requires num.start <= num.end <= num.start + 3 && sym.start == sym.end
    ensures Touches(num, sym, false) == Touches(num, sym, true)
  {
  }

  /** A five-digit number under a symbol at its middle digit is missed as written. */
  lemma MiddleDigitMissed()
    ensures !Touches(Token(0, 4, "12345"), Token(2, 2, "*"), false)
    ensures Touches(Token(0, 4, "12345"), Token(2, 2, "*"), true)
  {
  }

  /** Part 2's test of a gear against a number, which is right for a one-column gear. */
  lemma GearHitMeaning(gear: Token, num: Token)
    requires gear.start == gear.end && num.start <= num.end
    ensures EndpointHit(gear, num) <==> Near(gear, num)
  {
    if EndpointHit(gear, num) {
      var q := if InSpan(gear.start - 1, num) then gear.start - 1 else if InSpan(gear.start, num) then gear.start else gear.start + 1;
      assert InSpan(gear.start, gear) && InSpan(q, num);
    }
  }

  // ---------------------------------------------------------------------
  // Part 1
  // ---------------------------------------------------------------------

  /** The previous, current and next rows, an edge row being replaced by no tokens. */
  function Window(v: seq<seq<Token>>, i: nat): seq<Token>
    requires i < |v|
  {
    (if i == 0 then [] else v[i - 1]) + v[i] + (if i == |v| - 1 then [] else v[i + 1])
  }

  predicate IsSymbolToken(t: Token)
  {
    !IsNumber(t) && t.text != "."
  }

  /** The number's value; every number token of the tokenizer is all digits (TokensWellFormed). */
  function Value(t: Token): nat
  {
    if AllDigits(t.text) then DigitsValue(t.text) else 0
  }

  /** The number touches some symbol among the candidates. */
  predicate IsPart(num: Token, cands: seq<Token>, fixed: bool)
  {
    exists c :: c in cands && IsSymbolToken(c) && Touches(num, c, fixed)
  }

  /** What one number adds: its value when it touches a symbol, once, however many it touches. */
  function PartValue(t: Token, cands: seq<Token>, fixed: bool): nat
  {
    if IsNumber(t) && IsPart(t, cands, fixed) then Value(t) else 0
  }

  function RowParts(row: seq<Token>, cands: seq<Token>, fixed: bool): nat
  {
    if row == [] then 0 else RowParts(row[..|row| - 1], cands, fixed) + PartValue(row[|row| - 1], cands, fixed)
  }

  function PartSumUpTo(v: seq<seq<Token>>, k: nat, fixed: bool): nat
    requires k <= |v|
  {
    if k == 0 then 0 else PartSumUpTo(v, k - 1, fixed) + RowParts(v[k - 1], Window(v, k - 1), fixed)
  }

  /** The sum of every number's value, touching or not. */
  function NumbersSum(row: seq<Token>): nat
  {
    if row == [] then 0 else NumbersSum(row[..|row| - 1]) + (if IsNumber(row[|row| - 1]) then Value(row[|row| - 1]) else 0)
  }

  /** Each number is added at most once: a row adds at most the sum of its numbers, exactly that when all touch. */
  lemma {:induction false} RowPartsBound(row: seq<Token>, cands: seq<Token>, fixed: bool)
    ensures RowParts(row, cands, fixed) <= NumbersSum(row)
    ensures (forall t :: t in row && IsNumber(t) ==> IsPart(t, cands, fixed)) ==> RowParts(row, cands, fixed) == NumbersSum(row)
  {
    if row != [] {
      var init := row[..|row| - 1];
      assert forall t :: t in init ==> t in row;
      RowPartsBound(init, cands, fixed);
    }
  }

  /** The loop over the candidates, left at the first touching symbol. */
  method FindSymbol(num: Token, cands: seq<Token>, fixed: bool) returns (found: bool)
    ensures found == IsPart(num, cands, fixed)
  {
    for k := 0 to |cands|
      invariant !IsPart(num, cands[..k], fixed)
    {
      var c := cands[k];
      if !IsNumber(c) && c.text != "." && Touches(num, c, fixed) {
        assert c in cands;
        return true;
      }
      assert cands[..k + 1] == cands[..k] + [c];
    }
    assert cands[..|cands|] == cands;
    return false;
  }

  /** The loop over one row's tokens. */
  method SumRow(row: seq<Token>, cands: seq<Token>, fixed: bool) returns (rowTot: nat)
    ensures rowTot == RowParts(row, cands, fixed)
  {
    rowTot := 0;
    for k := 0 to |row|
      invariant rowTot == RowParts(row[..k], cands, fixed)
    {
      assert row[..k + 1][..k] == row[..k];
      if IsNumber(row[k]) {
        var part := FindSymbol(row[k], cands, fixed);
        if part {
          rowTot := rowTot + Value(row[k]);
        }
      }
    }
    assert row[..|row|] == row;
  }

  /** `p1`'s loop over the rows. */
  method SumParts(v: seq<seq<Token>>, fixed: bool) returns (tot: nat)
    ensures tot == PartSumUpTo(v, |v|, fixed)
  {
    tot := 0;
    for i := 0 to |v|
      invariant tot == PartSumUpTo(v, i, fixed)
    {
      var rowTot := SumRow(v[i], Window(v, i), fixed);
      tot := tot + rowTot;
    }
  }

  function P1Spec(lines: seq<string>, fixed: bool): Option<nat>
  {
    match Engine(lines, fixed)
    case None => None
    case Some(v) => Some(PartSumUpTo(v, |v|, fixed))
  }

  /** `p1`: the sum of the part numbers. */
  method P1(lines: seq<string>, fixed: bool) returns (r: Option<nat>)
    ensures r == P1Spec(lines, fixed)
  {
    var v := ParseEngine(lines, fixed);
    if v.None? {
      return None;
    }
    var tot := SumParts(v.value, fixed);
    r := Some(tot);
  }

  // ---------------------------------------------------------------------
  // Part 2
  // ---------------------------------------------------------------------

  /** The number tokens among the candidates that the gear's endpoint test hits, in order. */
  function Adjacent(gear: Token, cands: seq<Token>): seq<Token>
  {
    if cands == [] then []
    else
      var c := cands[|cands| - 1];
      Adjacent(gear, cands[..|cands| - 1]) + (if IsNumber(c) && EndpointHit(gear, c) then [c] else [])
  }

  /** For a one-column gear, Adjacent holds exactly the numbers with a digit next to it. */
  lemma {:induction false} AdjacentMeaning(gear: Token, cands: seq<Token>)
    requires gear.start == gear.end
    requires forall c :: c in cands ==> c.start <= c.end
    ensures forall t :: t in Adjacent(gear, cands) <==> t in cands && IsNumber(t) && Near(gear, t)
  {
    if cands != [] {
      var init := cands[..|cands| - 1];
      var c := cands[|cands| - 1];
      assert cands == init + [c];
      assert forall x :: x in init ==> x in cands;
      AdjacentMeaning(gear, init);
      GearHitMeaning(gear, c);
    }
  }

  /** A '*' with exactly two adjacent numbers adds their product; anything else adds nothing. */
  function GearRatio(gear: Token, cands: seq<Token>): nat
  {
    var a := Adjacent(gear, cands);
    if gear.text == "*" && |a| == 2 then Value(a[0]) * Value(a[1]) else 0
  }

  function RowGears(row: seq<Token>, cands: seq<Token>): nat
  {
    if row == [] then 0 else RowGears(row[..|row| - 1], cands) + GearRatio(row[|row| - 1], cands)
  }

  function GearSumUpTo(v: seq<seq<Token>>, k: nat): nat
    requires k <= |v|
  {
    if k == 0 then 0 else GearSumUpTo(v, k - 1) + RowGears(v[k - 1], Window(v, k - 1))
  }

  /**
   * The `incr` loop for one candidate number; once more than two numbers
   * have been found (`cutoff`), only the shift -1 is tried.
   */
  method HitsGear(gear: Token, c: Token, cutoff: bool) returns (hit: bool)
    ensures hit == if cutoff then Shifted(gear, c, -1) else EndpointHit(gear, c)
  {
    hit := false;
    var incr := -1;
    while incr < 2
      invariant -1 <= incr <= 2 && !hit
      invariant !cutoff || incr == -1
      invariant forall d :: -1 <= d < incr ==> !Shifted(gear, c, d)
    {
      if InSpan(gear.start + incr, c) || InSpan(gear.end + incr, c) {
        return true;
      }
      if cutoff {
        return false;
      }
      incr := incr + 1;
    }
  }

  /**
   * The count and the values of the numbers around a '*': both exact while
   * at most two are adjacent, and the count above two otherwise.
   */
  method CountAdjacent(gear: Token, cands: seq<Token>) returns (cnt: nat, list: seq<nat>)
    ensures |Adjacent(gear, cands)| <= 2 ==> cnt == |Adjacent(gear, cands)| && list == Values(Adjacent(gear, cands))
    ensures |Adjacent(gear, cands)| > 2 ==> cnt > 2
  {
    cnt := 0;
    list := [];
    for k := 0 to |cands|
      invariant cnt == |list|
      invariant |Adjacent(gear, cands[..k])| <= 2 ==> cnt == |Adjacent(gear, cands[..k])| && list == Values(Adjacent(gear, cands[..k]))
      invariant |Adjacent(gear, cands[..k])| > 2 ==> cnt > 2
    {
      var c := cands[k];
      ghost var pre := Adjacent(gear, cands[..k]);
      assert cands[..k + 1][..k] == cands[..k];
      assert Adjacent(gear, cands[..k + 1]) == pre + (if IsNumber(c) && EndpointHit(gear, c) then [c] else []);
      if IsNumber(c) {
        var hit := HitsGear(gear, c, cnt > 2);
        if hit {
          ValuesSnoc(pre, c);
          list := list + [Value(c)];
          cnt := cnt + 1;
        }
      }
    }
    assert cands[..|cands|] == cands;
  }

  /** The values of the tokens, in order. */
  function Values(ts: seq<Token>): (r: seq<nat>)
    ensures |r| == |ts| && forall j :: 0 <= j < |ts| ==> r[j] == Value(ts[j])
  {
    if ts == [] then [] else Values(ts[..|ts| - 1]) + [Value(ts[|ts| - 1])]
  }

  lemma ValuesSnoc(ts: seq<Token>, t: Token)
    ensures Values(ts + [t]) == Values(ts) + [Value(t)]
  {
    assert (ts + [t])[..|ts|] == ts;
  }

  /** The loop over one row's tokens in `p2`. */
  method SumGearRow(row: seq<Token>, cands: seq<Token>) returns (rowTot: nat)
    ensures rowTot == RowGears(row, cands)
  {
    rowTot := 0;
    for k := 0 to |row|
      invariant rowTot == RowGears(row[..k], cands)
    {
      assert row[..k + 1][..k] == row[..k];
      if row[k].text == "*" {
        var cnt, list := CountAdjacent(row[k], cands);
        if cnt == 2 {
          rowTot := rowTot + list[0] * list[1];
        }
      }
    }
    assert row[..|row|] == row;
  }

  /** `p2`'s loop over the rows. */
  method SumGears(v: seq<seq<Token>>) returns (tot: nat)
    ensures tot == GearSumUpTo(v, |v|)
  {
    tot := 0;
    for i := 0 to |v|
      invariant tot == GearSumUpTo(v, i)
    {
      var rowTot := SumGearRow(v[i], Window(v, i));
      tot := tot + rowTot;
    }
  }

  function P2Spec(lines: seq<string>, fixed: bool): Option<nat>
  {
    match Engine(lines, fixed)
    case None => None
    case Some(v) => Some(GearSumUpTo(v, |v|))
  }

  /** `p2`: the sum of the gear ratios. */
  method P2(lines: seq<string>, fixed: bool) returns (r: Option<nat>)
    ensures r == P2Spec(lines, fixed)
  {
    var v := ParseEngine(lines, fixed);
    if v.None? {
      return None;
    }
    var tot := SumGears(v.value);
    r := Some(tot);
  }

  // ---------------------------------------------------------------------
  // The two discrepancies, on concrete schematics
  // ---------------------------------------------------------------------

  /** A run that reaches the last column is recorded one column to the left as written. */
  lemma LastColumnShift()
    ensures LineTokens("..12", 4, false) == [Token(1, 2, "12")]
    ensures LineTokens("..12", 4, true) == [Token(2, 3, "12")]
  {
    var line := "..12";
    assert line[0] == '.' && line[1] == '.' && line[2] == '1' && line[3] == '2';
    forall fixed: bool
      ensures Scan(line, 3, 4, fixed) == ([], "1")
    {
      assert Scan(line, 1, 4, fixed) == ([], "");
      assert Scan(line, 2, 4, fixed) == ([], "");
      assert "" + ['1'] == "1";
    }
    assert "1" + ['2'] == "12";
  }

  lemma StarRow(fixed: bool)
    ensures LineTokens("*...", 4, fixed) == [Token(0, 0, "*")]
  {
    var line := "*...";
    assert line[0] == '*' && line[1] == '.' && line[2] == '.' && line[3] == '.';
    assert ['*'] == "*";
    assert [] + [Token(0, 0, "*")] == [Token(0, 0, "*")];
    assert Scan(line, 1, 4, fixed) == ([Token(0, 0, "*")], "");
    assert Scan(line, 2, 4, fixed) == ([Token(0, 0, "*")], "");
    assert Scan(line, 3, 4, fixed) == ([Token(0, 0, "*")], "");
  }

  lemma StarMiddleRow(fixed: bool)
    ensures LineTokens("..*...", 6, fixed) == [Token(2, 2, "*")]
  {
    var a := "..*...";
    assert a[0] == '.' && a[1] == '.' && a[2] == '*' && a[3] == '.' && a[4] == '.' && a[5] == '.';
    assert ['*'] == "*";
    assert [] + [Token(2, 2, "*")] == [Token(2, 2, "*")];
    assert Scan(a, 1, 6, fixed) == ([], "");
    assert Scan(a, 2, 6, fixed) == ([], "");
    assert Scan(a, 3, 6, fixed) == ([Token(2, 2, "*")], "");
    assert Scan(a, 4, 6, fixed) == ([Token(2, 2, "*")], "");
    assert Scan(a, 5, 6, fixed) == ([Token(2, 2, "*")], "");
  }

  lemma FiveDigitRow(fixed: bool)
    ensures LineTokens("12345.", 6, fixed) == [Token(0, 4, "12345")]
  {
    var b := "12345.";
    assert b[0] == '1' && b[1] == '2' && b[2] == '3' && b[3] == '4' && b[4] == '5' && b[5] == '.';
    assert "" + ['1'] == "1" && "1" + ['2'] == "12" && "12" + ['3'] == "123";
    assert "123" + ['4'] == "1234" && "1234" + ['5'] == "12345";
    assert Scan(b, 1, 6, fixed) == ([], "1");
    assert Scan(b, 2, 6, fixed) == ([], "12");
    assert Scan(b, 3, 6, fixed) == ([], "123");
    assert Scan(b, 4, 6, fixed) == ([], "1234");
    assert Scan(b, 5, 6, fixed) == ([], "12345");
  }

  lemma SmallValues()
    ensures DigitsValue("12") == 12 && DigitsValue("12345") == 12345
  {
    assert "12"[..1] == "1" && "1"[..0] == "";
    assert "12345"[..4] == "1234" && "1234"[..3] == "123" && "123"[..2] == "12";
  }

  /** The engine of a two-row schematic. */
  lemma EngineTwoRows(a: string, b: string, fixed: bool)
    ensures Engine([a, b], fixed) == Some([LineTokens(a, |a|, fixed), LineTokens(b, |a|, fixed)])
  {
    var v := Engine([a, b], fixed).value;
    assert |v| == 2 && v[0] == LineTokens(a, |a|, fixed) && v[1] == LineTokens(b, |a|, fixed);
    assert v == [LineTokens(a, |a|, fixed), LineTokens(b, |a|, fixed)];
  }

  /** Part 1 on a two-row schematic: what the second row's single number adds. */
  lemma TwoRowParts(top: Token, num: Token, fixed: bool)
    requires !IsNumber(top) && IsNumber(num)
    ensures PartSumUpTo([[top], [num]], 2, fixed) == PartValue(num, [top, num], fixed)
  {
    var v := [[top], [num]];
    assert Window(v, 0) == [top, num];
    assert Window(v, 1) == [top, num];
    assert v[0][..0] == [] && v[1][..0] == [];
    assert RowParts(v[0], Window(v, 0), fixed) == 0;
    assert RowParts(v[1], Window(v, 1), fixed) == PartValue(num, [top, num], fixed);
    assert PartSumUpTo(v, 1, fixed) == 0;
  }

  /** As written the shift makes "12", two columns from the '*', a part number. */
  lemma ShiftCountsFarNumber()
    ensures P1Spec(["*...", "..12"], false) == Some(12)
  {
    var star, num := Token(0, 0, "*"), Token(1, 2, "12");
    LastColumnShift();
    StarRow(false);
    EngineTwoRows("*...", "..12", false);
    TwoRowParts(star, num, false);
    SmallValues();
    assert star in [star, num] && Shifted(num, star, -1);
  }

  /** Fixed, "12" keeps its columns 2-3 and is not next to the '*' at column 0. */
  lemma FixedKeepsFarNumberOut()
    ensures P1Spec(["*...", "..12"], true) == Some(0)
  {
    var star, num := Token(0, 0, "*"), Token(2, 3, "12");
    LastColumnShift();
    StarRow(true);
    EngineTwoRows("*...", "..12", true);
    TwoRowParts(star, num, true);
  }

  /** As written a '*' over the middle digit of 12345 does not make it a part number. */
  lemma MiddleDigitPart()
    ensures P1Spec(["..*...", "12345."], false) == Some(0)
  {
    var star, num := Token(2, 2, "*"), Token(0, 4, "12345");
    StarMiddleRow(false);
    FiveDigitRow(false);
    EngineTwoRows("..*...", "12345.", false);
    TwoRowParts(star, num, false);
    MiddleDigitMissed();
  }

  /** Fixed, the '*' over the middle digit makes 12345 a part number. */
  lemma FixedMiddleDigitPart()
    ensures P1Spec(["..*...", "12345."], true) == Some(12345)
  {
    var star, num := Token(2, 2, "*"), Token(0, 4, "12345");
    StarMiddleRow(true);
    FiveDigitRow(true);
    EngineTwoRows("..*...", "12345.", true);
    TwoRowParts(star, num, true);
    SmallValues();
    assert star in [star, num] && Touches(num, star, true);
  }
}
