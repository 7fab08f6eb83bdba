/**
 * Day 1: calibration values. Each line's value is ten times its first
 * decimal digit plus its last one; part 2 first rewrites the start of every
 * spelled-out digit word ("one" .. "nine") into that digit.
 */
module D1 {
  import opened Wrappers
  import opened Text

  /** The decimal digits of a line, in order. */
  function DigitsOf(line: string): (r: seq<nat>)
    ensures |r| <= |line|
    ensures forall k :: 0 <= k < |r| ==> r[k] < 10
  {
    if line == [] then []
    else
      var init := DigitsOf(line[..|line| - 1]);
      var c := line[|line| - 1];
      if IsDigit(c) then init + [DigitValue(c)] else init
  }

  /** A line's value: first digit times ten plus last digit, or -11 (both markers at -1) without digits. */
  function LineValue(line: string): int
  {
    var ds := DigitsOf(line);
    if ds == [] then -11 else 10 * ds[0] + ds[|ds| - 1]
  }

  /** A line with digits has a value in 0..99; with a single digit d it is 11·d. */
  lemma LineValueRange(line: string)
    ensures DigitsOf(line) != [] ==> 0 <= LineValue(line) <= 99
    ensures |DigitsOf(line)| == 1 ==> LineValue(line) == 11 * DigitsOf(line)[0]
    ensures DigitsOf(line) == [] <==> forall i :: 0 <= i < |line| ==> !IsDigit(line[i])
  {
    DigitsOfEmpty(line);
  }

  lemma {:induction false} DigitsOfEmpty(line: string)
    ensures DigitsOf(line) == [] <==> forall i :: 0 <= i < |line| ==> !IsDigit(line[i])
  {
    if line != [] {
      var init := line[..|line| - 1];
      DigitsOfEmpty(init);
      assert forall i :: 0 <= i < |init| ==> init[i] == line[i];
    }
  }

  /** The source's character loop: `first` is set once, `last` on every digit. */
  method CalibrationValue(line: string) returns (r: int)
    ensures r == LineValue(line)
  {
    var first: int, last: int := -1, -1;
    for i := 0 to |line|
      invariant DigitsOf(line[..i]) == [] ==> first == -1 && last == -1
      invariant DigitsOf(line[..i]) != [] ==>
        first == DigitsOf(line[..i])[0] && last == DigitsOf(line[..i])[|DigitsOf(line[..i])| - 1]
    {
      assert line[..i + 1][..i] == line[..i];
      if IsDigit(line[i]) {
        var parsed := DigitValue(line[i]);
        if first == -1 {
          first := parsed;
        }
        last := parsed;
      }
    }
    assert line[..|line|] == line;
    r := last + 10 * first;
  }

  function SumValues(lines: seq<string>): int
  {
    if lines == [] then 0 else SumValues(lines[..|lines| - 1]) + LineValue(lines[|lines| - 1])
  }

  /** Part 1: the sum of the line values. */
  method P1(lines: seq<string>) returns (r: int)
    ensures r == SumValues(lines)
  {
    r := 0;
    for k := 0 to |lines|
      invariant r == SumValues(lines[..k])
    {
      assert lines[..k + 1][..k] == lines[..k];
      var v := CalibrationValue(lines[k]);
      r := r + v;
    }
    assert lines[..|lines|] == lines;
  }

  // ---------------------------------------------------------------------
  // Part 2: spelled-out digits
  // ---------------------------------------------------------------------

  const Words: seq<string> := ["one", "two", "three", "four", "five", "six", "seven", "eight", "nine"]

  predicate StartsWith(s: string, i: nat, w: string)
  {
    i + |w| <= |s| && s[i..i + |w|] == w
  }

  /**
   * The digit of the last of the first `k` words that starts at position i
   * (a later word overwrites an earlier one in the source's map).
   */
  function WordUpTo(line: string, i: nat, k: nat): (r: Option<nat>)
    requires k <= 9
    ensures r.Some? ==> 1 <= r.value <= k
  {
    if k == 0 then None
    else if StartsWith(line, i, Words[k - 1]) then Some(k)
    else WordUpTo(line, i, k - 1)
  }

  /** The digit whose word starts at position i, if any. */
  function WordAt(line: string, i: nat): (r: Option<nat>)
    ensures r.Some? ==> 1 <= r.value <= 9
  {
    WordUpTo(line, i, 9)
  }

  /** A recorded digit's word does start there, and with no digit recorded no word starts there. */
  lemma {:induction false} WordUpToMeaning(line: string, i: nat, k: nat)
    requires k <= 9
    ensures WordUpTo(line, i, k).Some? ==> StartsWith(line, i, Words[WordUpTo(line, i, k).value - 1])
    ensures WordUpTo(line, i, k).None? ==> forall j :: 0 <= j < k ==> !StartsWith(line, i, Words[j])
  {
    if k > 0 && !StartsWith(line, i, Words[k - 1]) {
      WordUpToMeaning(line, i, k - 1);
    }
  }

  /** The first two letters tell the nine words apart. */
  function KeyIndex(c0: char, c1: char): Option<nat>
  {
    match (c0, c1)
    case ('o', 'n') => Some(0)
    case ('t', 'w') => Some(1)
    case ('t', 'h') => Some(2)
    case ('f', 'o') => Some(3)
    case ('f', 'i') => Some(4)
    case ('s', 'i') => Some(5)
    case ('s', 'e') => Some(6)
    case ('e', 'i') => Some(7)
    case ('n', 'i') => Some(8)
    case _ => None
  }

  lemma KeyIndexOfWords(k: nat)
    requires k < 9
    ensures |Words[k]| >= 2 && KeyIndex(Words[k][0], Words[k][1]) == Some(k)
  {
  }

  /** No two digit words start at the same position, so the order of the source's map does not matter. */
  lemma WordsDistinctStarts(line: string, i: nat, a: nat, b: nat)
    requires a < 9 && b < 9 && StartsWith(line, i, Words[a]) && StartsWith(line, i, Words[b])
    ensures a == b
  {
    KeyIndexOfWords(a);
    KeyIndexOfWords(b);
    assert line[i] == line[i..i + |Words[a]|][0] == Words[a][0];
    assert line[i + 1] == line[i..i + |Words[a]|][1] == Words[a][1];
    assert line[i] == line[i..i + |Words[b]|][0] == Words[b][0];
    assert line[i + 1] == line[i..i + |Words[b]|][1] == Words[b][1];
  }

  function RewrittenChar(line: string, i: nat): char
    requires i < |line|
  {
    if WordAt(line, i).Some? then DigitChar(WordAt(line, i).value) else line[i]
  }

  /** The first n characters of the rewritten line. */
  function RewrittenPrefix(line: string, n: nat): (r: string)
    requires n <= |line|
    ensures |r| == n
    ensures forall i :: 0 <= i < n ==> r[i] == RewrittenChar(line, i)
  {
    if n == 0 then [] else RewrittenPrefix(line, n - 1) + [RewrittenChar(line, n - 1)]
  }

  /** The rewritten line: at each word start the digit, elsewhere the character itself; same length. */
  function Rewritten(line: string): (r: string)
    ensures |r| == |line|
    ensures forall i :: 0 <= i < |line| ==>
      r[i] == if WordAt(line, i).Some? then DigitChar(WordAt(line, i).value) else line[i]
  {
    RewrittenPrefix(line, |line|)
  }

  /** The index map holds at position p exactly the digit of the last of the first k words starting there. */
  ghost predicate Holds(indices: map<nat, nat>, line: string, p: nat, k: nat)
    requires k <= 9
  {
    var o := WordUpTo(line, p, k);
    (p in indices <==> o.Some?) && (p in indices ==> indices[p] == o.value)
  }

  /** The index map agrees with `WordUpTo(line, _, k)` at every position. */
  ghost predicate Recorded(indices: map<nat, nat>, line: string, k: nat)
    requires k <= 9
  {
    forall p: nat :: Holds(indices, line, p, k)
  }

  /** One word's occurrences (`match_indices`), recorded at their start indices. */
  method RecordWord(line: string, k: nat, indices0: map<nat, nat>) returns (indices: map<nat, nat>)
    requires k < 9 && Recorded(indices0, line, k)
    ensures Recorded(indices, line, k + 1)
  {
    indices := indices0;
    var w, n := Words[k], k + 1;
    for i := 0 to |line|
      invariant forall p: nat :: p < i ==> Holds(indices, line, p, n)
      invariant forall p: nat :: p >= i ==> Holds(indices, line, p, k)
    {
      ghost var before := indices;
      assert Holds(before, line, i, k);
      assert WordUpTo(line, i, n) == if StartsWith(line, i, w) then Some(n) else WordUpTo(line, i, k);
      if StartsWith(line, i, w) {
        indices := indices[i := n];
      }
      assert Holds(indices, line, i, n);
      forall p: nat | p != i
        ensures Holds(indices, line, p, n) <==> Holds(before, line, p, n)
        ensures Holds(indices, line, p, k) <==> Holds(before, line, p, k)
      {
      }
    }
    forall p: nat | p >= |line|
      ensures Holds(indices, line, p, n)
    {
      assert !StartsWith(line, p, w);
      assert WordUpTo(line, p, n) == WordUpTo(line, p, k);
      assert Holds(indices, line, p, k);
    }
  }

  /**
   * The first loop: every occurrence of every word records its digit at its
   * start index. `match_indices` reports non-overlapping matches; no digit
   * word overlaps itself, so that is every occurrence.
   */
  method WordIndices(line: string) returns (indices: map<nat, nat>)
    ensures forall i: nat :: i in indices <==> WordAt(line, i).Some?
    ensures forall i :: i in indices ==> indices[i] == WordAt(line, i).value
  {
    indices := map[];
    for k := 0 to 9
      invariant Recorded(indices, line, k)
    {
      indices := RecordWord(line, k, indices);
    }
    forall i: nat
      ensures i in indices <==> WordAt(line, i).Some?
      ensures i in indices ==> indices[i] == WordAt(line, i).value
    {
      assert Holds(indices, line, i, 9);
    }
  }

  /** The second loop: copy each character, or the recorded digit at a word start. */
  method Rewrite(line: string) returns (s: string)
    ensures s == Rewritten(line)
  {
    var indices := WordIndices(line);
    s := [];
    var i := 0;
    while i < |line|
      invariant 0 <= i <= |line| && s == RewrittenPrefix(line, i)
    {
      if i in indices {
        s := s + NatToString(indices[i]);
      } else {
        s := s + [line[i]];
      }
      i := i + 1;
    }
  }

  /** A word found at i is the one its first two letters name. */
  lemma WordAtKey(line: string, i: nat)
    ensures WordAt(line, i).Some? ==>
      i + 1 < |line| && KeyIndex(line[i], line[i + 1]) == Some(WordAt(line, i).value - 1)
  {
    WordUpToMeaning(line, i, 9);
    if WordAt(line, i).Some? {
      var j := WordAt(line, i).value - 1;
      var w := Words[j];
      KeyIndexOfWords(j);
      assert line[i] == line[i..i + |w|][0] == w[0];
      assert line[i + 1] == line[i..i + |w|][1] == w[1];
    }
  }

  /** A word that starts at i is the one found there. */
  lemma WordAtFound(line: string, i: nat, j: nat)
    requires j < 9 && StartsWith(line, i, Words[j])
    ensures WordAt(line, i) == Some(j + 1)
  {
    WordUpToMeaning(line, i, 9);
    WordsDistinctStarts(line, i, j, WordAt(line, i).value - 1);
  }

  /** No word starts where the next two letters name none. */
  lemma NoWordAt(line: string, i: nat)
    requires i + 1 >= |line| || KeyIndex(line[i], line[i + 1]).None?
    ensures WordAt(line, i).None?
  {
    WordAtKey(line, i);
  }

  /** No word starts in "eightwo" at 1, 2, 3, 5 or 6. */
  lemma EightTwoQuiet(i: nat)
    requires i == 1 || i == 2 || i == 3 || i == 5 || i == 6
    ensures WordAt("eightwo", i).None?
  {
    var line := "eightwo";
    assert line == ['e', 'i', 'g', 'h', 't', 'w', 'o'];
    NoWordAt(line, i);
  }

  /** In "eightwo" the words "eight" and "two" start at 0 and 4. */
  lemma EightTwoStarts()
    ensures WordAt("eightwo", 0) == Some(8) && WordAt("eightwo", 4) == Some(2)
  {
    var line := "eightwo";
    assert line[0..5] == Words[7];
    WordAtFound(line, 0, 7);
    assert line[4..7] == Words[1];
    WordAtFound(line, 4, 1);
  }

  /** Rewriting only touches word starts, so "eightwo" keeps both digits. */
  lemma EightTwo()
    ensures Rewritten("eightwo") == "8igh2wo"
    ensures LineValue(Rewritten("eightwo")) == 82
  {
    var line := "eightwo";
    EightTwoStarts();
    EightTwoQuiet(1);
    EightTwoQuiet(2);
    EightTwoQuiet(3);
    EightTwoQuiet(5);
    EightTwoQuiet(6);
    var r := Rewritten(line);
    assert r[0] == '8' && r[1] == 'i' && r[2] == 'g' && r[3] == 'h';
    assert r[4] == '2' && r[5] == 'w' && r[6] == 'o';
    assert r == "8igh2wo";
    EightTwoDigits();
  }

  lemma EightTwoDigits()
    ensures DigitsOf("8igh2wo") == [8, 2]
  {
    assert "8igh2wo"[..6] == "8igh2w";
    assert "8igh2w"[..5] == "8igh2";
    assert "8igh2"[..4] == "8igh";
    assert "8igh"[..3] == "8ig";
    assert "8ig"[..2] == "8i";
    assert "8i"[..1] == "8";
  }

  function SumRewritten(lines: seq<string>): int
  {
    if lines == [] then 0 else SumRewritten(lines[..|lines| - 1]) + LineValue(Rewritten(lines[|lines| - 1]))
  }

  /** Part 2: part 1 on the rewritten lines. */
  method P2(lines: seq<string>) returns (r: int)
    ensures r == SumRewritten(lines)
  {
    var rewritten: seq<string> := [];
    for k := 0 to |lines|
      invariant |rewritten| == k && forall j :: 0 <= j < k ==> rewritten[j] == Rewritten(lines[j])
    {
      var s := Rewrite(lines[k]);
      rewritten := rewritten + [s];
    }
    r := P1(rewritten);
    SumRewrittenIsP1(lines, rewritten);
  }

  lemma {:induction false} SumRewrittenIsP1(lines: seq<string>, rewritten: seq<string>)
    requires |rewritten| == |lines| && forall j :: 0 <= j < |lines| ==> rewritten[j] == Rewritten(lines[j])
    ensures SumValues(rewritten) == SumRewritten(lines)
  {
    if lines != [] {
      SumRewrittenIsP1(lines[..|lines| - 1], rewritten[..|rewritten| - 1]);
    }
  }
}
