/**
 * Day 5: an almanac of seven maps. The first line lists seed numbers; each
 * following section, headed "<name> map:", holds lines "dest src len", each
 * moving the values src..src+len-1 to dest..dest+len-1. A value goes through
 * the seven sections in a fixed order; part 1 reports the lowest location of
 * the seeds, part 2 reads the seed line as (start, length) pairs of ranges
 * and moves whole ranges, cutting them where a map line covers only part.
 */
module D5 {
  import opened Wrappers
  import opened Text

  /** A map line: (destination start, source start, length). */
  type Rule = (int, int, int)

  /** The map lines of each section, by section name. */
  type Table = map<string, seq<Rule>>

  // ---------------------------------------------------------------------
  // The chain of sections
  // ---------------------------------------------------------------------

  /** The seven sections in the order a value goes through them. */
  const Stages: seq<string> := [
    "seed-to-soil", "soil-to-fertilizer", "fertilizer-to-water", "water-to-light",
    "light-to-temperature", "temperature-to-humidity", "humidity-to-location"]

  /** `get_mapping`: the section that follows each section, "end" after the last. */
  const Chain: map<string, string> := map[
    "seed-to-soil" := "soil-to-fertilizer",
    "soil-to-fertilizer" := "fertilizer-to-water",
    "fertilizer-to-water" := "water-to-light",
    "water-to-light" := "light-to-temperature",
    "light-to-temperature" := "temperature-to-humidity",
    "temperature-to-humidity" := "humidity-to-location",
    "humidity-to-location" := "end"]

  /** The section visited k-th, starting from 0, and "end" after all seven. */
  function StageKey(k: nat): string
  {
    if k < |Stages| then Stages[k] else "end"
  }

  /** Following `Chain` from "seed-to-soil" visits the seven sections in order and then stops. */
  lemma ChainFollowsStages(k: nat)
    requires k <= |Stages|
    ensures StageKey(k) == "end" <==> k == |Stages|
    ensures k < |Stages| ==> StageKey(k) in Chain && Chain[StageKey(k)] == StageKey(k + 1)
  {
  }

  /** The first k sections of the chain all have map lines. */
  predicate StagesUpTo(table: Table, k: nat)
  {
    forall j :: 0 <= j < k && j < |Stages| ==> Stages[j] in table
  }

  /** Every one of the seven sections has map lines. */
  predicate HasStages(table: Table)
  {
    StagesUpTo(table, |Stages|)
  }

  // ---------------------------------------------------------------------
  // Parsing
  // ---------------------------------------------------------------------

  /** `.map(|x| x.parse::<i64>().unwrap())` over tokens; None if one does not parse. */
  function ParseAll(tokens: seq<string>): Option<seq<int>>
  {
    if tokens == [] then Some([])
    else match (ParseInt(tokens[0]), ParseAll(tokens[1..]))
      case (Some(v), Some(vs)) => Some([v] + vs)
      case _ => None
  }

  /** Every token is parsed, in order, or the whole fails exactly when one token does not parse. */
  lemma {:induction false} ParseAllMeaning(tokens: seq<string>)
    ensures ParseAll(tokens).Some? <==> forall i :: 0 <= i < |tokens| ==> ParseInt(tokens[i]).Some?
    ensures ParseAll(tokens).Some? ==> |ParseAll(tokens).value| == |tokens|
    ensures ParseAll(tokens).Some? ==>
      forall i :: 0 <= i < |tokens| ==> ParseInt(tokens[i]) == Some(ParseAll(tokens).value[i])
  {
    if tokens != [] {
      ParseAllMeaning(tokens[1..]);
      assert forall i :: 1 <= i < |tokens| ==> tokens[i] == tokens[1..][i - 1];
    }
  }

  /** `parse_line`: the whitespace-separated integers of a line. */
  function Numbers(line: string): Option<seq<int>>
  {
    ParseAll(SplitWhitespace(line))
  }

  /** What a line after the first is to `parse_lines`. */
  datatype Line = Blank | Header(name: string) | Data(rule: Rule)

  /**
   * A line after the first: an empty line is skipped; a line with ':' names
   * a section by the first word before the ':' (`unwrap` fails when there is
   * none); any other line is a map line whose first three numbers are taken
   * (`v[0]`, `v[1]`, `v[2]` fail when there are fewer).
   */
  function Classify(line: string): (r: Option<Line>)
    ensures r == Some(Blank) <==> line == ""
  {
    if line == "" then Some(Blank)
    else if ':' in line then
      var words := SplitWhitespace(Trim(Split(line, ':')[0]));
      if words == [] then None else Some(Header(words[0]))
    else match Numbers(line)
      case None => None
      case Some(v) => if |v| < 3 then None else Some(Data((v[0], v[1], v[2])))
  }

  /** One line of the `for_each` in `parse_lines`, on the current section name and the table. */
  function Step(state: (string, Table), line: string): Option<(string, Table)>
  {
    match Classify(line)
    case None => None
    case Some(Blank) => Some(state)
    case Some(Header(name)) => Some((name, state.1))
    case Some(Data(rule)) => Some((state.0, Push(state.1, state.0, rule)))
  }

  /** A map line added at the end of a section, which is created if missing. */
  function Push(table: Table, key: string, rule: Rule): Table
  {
    table[key := (if key in table then table[key] else []) + [rule]]
  }

  /** The `for_each` of `parse_lines` over `lines`, from no section ("") and an empty table. */
  function Sections(lines: seq<string>): Option<(string, Table)>
  {
    if lines == [] then Some(("", map[]))
    else match Sections(lines[..|lines| - 1])
      case None => None
      case Some(state) => Step(state, lines[|lines| - 1])
  }

  /**
   * `parse_lines`: the seeds after the ':' of the first line, and the map
   * lines of every section. Fails without a first line, without a ':' in it,
   * or on a line that does not parse.
   */
  function Parse(lines: seq<string>): Option<(seq<int>, Table)>
  {
    if lines == [] then None
    else
      var pieces := Split(lines[0], ':');
      if |pieces| < 2 then None
      else match Numbers(Trim(pieces[1]))
        case None => None
        case Some(seeds) =>
          match Sections(lines[1..])
          case None => None
          case Some(state) => Some((seeds, state.1))
  }

  /** The name of the last section header among `lines`, "" before any. */
  function LastHeader(lines: seq<string>): string
  {
    if lines == [] then ""
    else match Classify(lines[|lines| - 1])
      case Some(Header(name)) => name
      case _ => LastHeader(lines[..|lines| - 1])
  }

  /** The map lines among `lines` that come under a header named `key`, in order. */
  function RulesUnder(lines: seq<string>, key: string): seq<Rule>
  {
    if lines == [] then []
    else
      var init := lines[..|lines| - 1];
      RulesUnder(init, key) + match Classify(lines[|lines| - 1])
        case Some(Data(rule)) => if LastHeader(init) == key then [rule] else []
        case _ => []
  }

  /** Every line of `lines` is understood. */
  predicate AllClassified(lines: seq<string>)
  {
    forall i :: 0 <= i < |lines| ==> Classify(lines[i]).Some?
  }

  /** One line fails exactly when it is not understood. */
  lemma StepFails(state: (string, Table), line: string)
    ensures Step(state, line).Some? <==> Classify(line).Some?
  {
  }

  /** The fold fails exactly when some line is not understood. */
  lemma {:induction false} SectionsFail(lines: seq<string>)
    ensures Sections(lines).Some? <==> AllClassified(lines)
  {
    if lines != [] {
      var init := lines[..|lines| - 1];
      SectionsFail(init);
      AllClassifiedSnoc(lines);
      if Sections(init).Some? {
        StepFails(Sections(init).value, lines[|lines| - 1]);
      }
    }
  }

  /** Every line is understood when the earlier ones and the last one are. */
  lemma AllClassifiedSnoc(lines: seq<string>)
    requires lines != []
    ensures AllClassified(lines) <==> AllClassified(lines[..|lines| - 1]) && Classify(lines[|lines| - 1]).Some?
  {
    var init := lines[..|lines| - 1];
    assert forall i :: 0 <= i < |init| ==> init[i] == lines[i];
  }

  /**
   * What the table holds: the current section is the last header; a section
   * is present exactly when some map line comes under its header, and then
   * it holds those lines in order.
   */
  lemma {:induction false} SectionsMeaning(lines: seq<string>, key: string)
    requires Sections(lines).Some?
    ensures Sections(lines).value.0 == LastHeader(lines)
    ensures key in Sections(lines).value.1 <==> RulesUnder(lines, key) != []
    ensures key in Sections(lines).value.1 ==> Sections(lines).value.1[key] == RulesUnder(lines, key)
  {
    if lines != [] {
      var init := lines[..|lines| - 1];
      var state := Sections(init).value;
      SectionsMeaning(init, key);
      match Classify(lines[|lines| - 1]) {
        case Some(c) =>
          match c {
            case Blank =>
            case Header(_) =>
            case Data(rule) =>
              assert Sections(lines).value.1 == Push(state.1, state.0, rule);
          }
      }
    }
  }

  /** `parse_lines`. */
  method ParseLines(lines: seq<string>) returns (r: Option<(seq<int>, Table)>)
    ensures r == Parse(lines)
  {
    if lines == [] {
      return None;
    }
    var pieces := Split(lines[0], ':');
    if |pieces| < 2 {
      return None;
    }
    var seeds := Numbers(Trim(pieces[1]));
    if seeds.None? {
      return None;
    }
    var sections := ReadSections(lines[1..]);
    if sections.None? {
      return None;
    }
    r := Some((seeds.value, sections.value.1));
  }

  /** The `for_each` of `parse_lines`: the current section name and the table, updated line by line. */
  method ReadSections(lines: seq<string>) returns (r: Option<(string, Table)>)
    ensures r == Sections(lines)
  {
    var table: Table := map[];
    var curKey := "";
    for i := 0 to |lines|
      invariant Sections(lines[..i]) == Some((curKey, table))
    {
      SectionsStep(lines, i);
      var line := Classify(lines[i]);
      match line {
        case None =>
          SectionsFailPrefix(lines, i + 1);
          return None;
        case Some(Blank) =>
        case Some(Header(name)) =>
          curKey := name;
        case Some(Data(rule)) =>
          ghost var before := table;
          if curKey !in table {
            table := table[curKey := []];
          }
          table := table[curKey := table[curKey] + [rule]];
          assert table == Push(before, curKey, rule);
      }
    }
    assert lines[..|lines|] == lines;
    r := Some((curKey, table));
  }

  /** The fold over one more line. */
  lemma SectionsStep(lines: seq<string>, i: nat)
    requires i < |lines|
    ensures Sections(lines[..i + 1]) == if Sections(lines[..i]).None? then None else Step(Sections(lines[..i]).value, lines[i])
  {
    assert lines[..i + 1][..i] == lines[..i] && lines[..i + 1][i] == lines[i];
  }

  /** A line that is not understood makes the whole fail. */
  lemma {:induction false} SectionsFailPrefix(lines: seq<string>, k: nat)
    requires k <= |lines| && Sections(lines[..k]).None?
    ensures Sections(lines).None?
    decreases |lines| - k
  {
    if k < |lines| {
      assert lines[..k + 1][..k] == lines[..k];
      SectionsFailPrefix(lines, k + 1);
    } else {
      assert lines[..k] == lines;
    }
  }

  // ---------------------------------------------------------------------
  // Part 1: single values
  // ---------------------------------------------------------------------

  /** The map line covers v: `cv >= start_src && cv < start_src + length`. */
  predicate InSource(rule: Rule, v: int)
  {
    rule.1 <= v < rule.1 + rule.2
  }

  /** Where the map line sends a value it covers. */
  function Shift(rule: Rule, v: int): int
  {
    rule.0 + (v - rule.1)
  }

  /**
   * One map line on a value and its moved-this-section flag: a value not yet
   * moved in this section that the line covers is moved and flagged.
   */
  function MapOnce(rule: Rule, p: (int, bool)): (int, bool)
  {
    if !p.1 && InSource(rule, p.0) then (Shift(rule, p.0), true) else p
  }

  /** The map lines of a section applied in order to one value and its flag. */
  function Pass(rules: seq<Rule>, p: (int, bool)): (int, bool)
  {
    if rules == [] then p else MapOnce(rules[|rules| - 1], Pass(rules[..|rules| - 1], p))
  }

  /** Reference: the value sent by the first map line that covers it, unchanged when none does. */
  function FirstMatch(rules: seq<Rule>, v: int): int
  {
    if rules == [] then v
    else if InSource(rules[0], v) then Shift(rules[0], v)
    else FirstMatch(rules[1..], v)
  }

  /** Some map line of the section covers v. */
  predicate Covered(rules: seq<Rule>, v: int)
  {
    exists j :: 0 <= j < |rules| && InSource(rules[j], v)
  }

  /** The first covering line decides. */
  lemma {:induction false} FirstMatchAt(rules: seq<Rule>, v: int, k: nat)
    requires k < |rules| && InSource(rules[k], v)
    requires forall j :: 0 <= j < k ==> !InSource(rules[j], v)
    ensures FirstMatch(rules, v) == Shift(rules[k], v)
  {
    if k > 0 {
      assert !InSource(rules[0], v);
      assert forall j :: 0 <= j < k - 1 ==> rules[1..][j] == rules[j + 1];
      FirstMatchAt(rules[1..], v, k - 1);
    }
  }

  /** A value no line covers is left as it is. */
  lemma {:induction false} FirstMatchNone(rules: seq<Rule>, v: int)
    requires !Covered(rules, v)
    ensures FirstMatch(rules, v) == v
  {
    if rules != [] {
      assert !InSource(rules[0], v);
      forall j | 0 <= j < |rules[1..]|
        ensures !InSource(rules[1..][j], v)
      {
        assert rules[1..][j] == rules[j + 1];
      }
      FirstMatchNone(rules[1..], v);
    }
  }

  /** A value already moved in this section is not moved again. */
  lemma {:induction false} PassFlagged(rules: seq<Rule>, x: int)
    ensures Pass(rules, (x, true)) == (x, true)
  {
    if rules != [] {
      PassFlagged(rules[..|rules| - 1], x);
    }
  }

  /** A line added after the others only matters for a value none of them covers. */
  lemma {:induction false} FirstMatchSnoc(rules: seq<Rule>, rule: Rule, v: int)
    ensures FirstMatch(rules + [rule], v)
      == if Covered(rules, v) then FirstMatch(rules, v) else if InSource(rule, v) then Shift(rule, v) else v
  {
    if rules == [] {
      assert [] + [rule] == [rule];
    } else {
      assert (rules + [rule])[1..] == rules[1..] + [rule];
      FirstMatchSnoc(rules[1..], rule, v);
      if !InSource(rules[0], v) {
        if Covered(rules, v) {
          var j :| 0 <= j < |rules| && InSource(rules[j], v);
          assert InSource(rules[1..][j - 1], v);
        }
        if Covered(rules[1..], v) {
          var j :| 0 <= j < |rules[1..]| && InSource(rules[1..][j], v);
          assert InSource(rules[j + 1], v);
        }
      }
    }
  }

  /**
   * The loop over the map lines of a section moves a value by the first line
   * that covers it, and flags it exactly when some line does.
   */
  lemma {:induction false} PassIsFirstMatch(rules: seq<Rule>, v: int)
    ensures Pass(rules, (v, false)) == (FirstMatch(rules, v), Covered(rules, v))
  {
    if rules != [] {
      var init := rules[..|rules| - 1];
      var last := rules[|rules| - 1];
      assert rules == init + [last];
      PassIsFirstMatch(init, v);
      FirstMatchSnoc(init, last, v);
      if Covered(init, v) {
        var j :| 0 <= j < |init| && InSource(init[j], v);
        assert InSource(rules[j], v);
      } else {
        FirstMatchNone(init, v);
        forall j | 0 <= j < |init|
          ensures !InSource(rules[j], v)
        {
          assert rules[j] == init[j];
        }
      }
    }
  }

  /** The two nested loops of one section in `p1`, over fresh moved flags. */
  method MoveValues(rules: seq<Rule>, vals0: seq<int>) returns (vals: seq<int>)
    ensures |vals| == |vals0|
    ensures forall i :: 0 <= i < |vals0| ==> vals[i] == FirstMatch(rules, vals0[i])
  {
    vals := vals0;
    var moved := seq(|vals0|, _ => false);
    for t := 0 to |rules|
      invariant |vals| == |moved| == |vals0|
      invariant forall i :: 0 <= i < |vals0| ==> (vals[i], moved[i]) == Pass(rules[..t], (vals0[i], false))
    {
      var (dest, src, len) := rules[t];
      assert rules[..t + 1][..t] == rules[..t] && rules[..t + 1][t] == rules[t];
      for i := 0 to |vals|
        invariant |vals| == |moved| == |vals0|
        invariant forall j :: 0 <= j < i ==> (vals[j], moved[j]) == Pass(rules[..t + 1], (vals0[j], false))
        invariant forall j :: i <= j < |vals0| ==> (vals[j], moved[j]) == Pass(rules[..t], (vals0[j], false))
      {
        if !moved[i] {
          var cv := vals[i];
          if cv >= src && cv < src + len {
            vals := vals[i := dest + (cv - src)];
            moved := moved[i := true];
          }
        }
      }
    }
    assert rules[..|rules|] == rules;
    forall i | 0 <= i < |vals0|
      ensures vals[i] == FirstMatch(rules, vals0[i])
    {
      PassIsFirstMatch(rules, vals0[i]);
    }
  }

  /** A value taken through the first k sections of the chain. */
  function LocateUpTo(table: Table, k: nat, v: int): int
    requires k <= |Stages| && StagesUpTo(table, k)
  {
    if k == 0 then v else FirstMatch(table[Stages[k - 1]], LocateUpTo(table, k - 1, v))
  }

  /** The location of a seed. */
  function Location(table: Table, v: int): int
    requires HasStages(table)
  {
    LocateUpTo(table, |Stages|, v)
  }

  /** The location of every seed. */
  function Locations(table: Table, seeds: seq<int>): (r: seq<int>)
    requires HasStages(table)
    ensures |r| == |seeds|
  {
    seq(|seeds|, i requires 0 <= i < |seeds| => Location(table, seeds[i]))
  }

  /** `.iter().min().unwrap()` on a non-empty sequence. */
  function MinOf(s: seq<int>): (m: int)
    requires s != []
    ensures m in s
    ensures forall x :: x in s ==> m <= x
  {
    if |s| == 1 then s[0]
    else
      var rest := MinOf(s[1..]);
      assert forall x :: x in s ==> x == s[0] || x in s[1..];
      if s[0] <= rest then s[0] else rest
  }

  /** `p1`: the lowest location of the seeds; fails when parsing fails, a section is missing, or there are no seeds. */
  function Part1(lines: seq<string>): Option<int>
  {
    match Parse(lines)
    case None => None
    case Some((seeds, table)) =>
      if !HasStages(table) || seeds == [] then None
      else Some(MinOf(Locations(table, seeds)))
  }

  /** Part 1 answers with the location of some seed that no other seed's location is below. */
  lemma Part1Meaning(lines: seq<string>)
    ensures Part1(lines).Some? <==>
      Parse(lines).Some? && HasStages(Parse(lines).value.1) && Parse(lines).value.0 != []
    ensures Part1(lines).Some? ==>
      var (seeds, table) := Parse(lines).value;
      (exists i :: 0 <= i < |seeds| && Part1(lines).value == Location(table, seeds[i]))
      && forall i :: 0 <= i < |seeds| ==> Part1(lines).value <= Location(table, seeds[i])
  {
    if Part1(lines).Some? {
      var (seeds, table) := Parse(lines).value;
      var locs := Locations(table, seeds);
      var i :| 0 <= i < |locs| && locs[i] == Part1(lines).value;
      assert Part1(lines).value == Location(table, seeds[i]);
      forall j | 0 <= j < |seeds|
        ensures Part1(lines).value <= Location(table, seeds[j])
      {
        assert locs[j] in locs;
      }
    }
  }

  /** `p1`: the values of all seeds go through the sections along `Chain` until "end". */
  method P1(lines: seq<string>) returns (r: Option<int>)
    ensures r == Part1(lines)
  {
    var parsed := ParseLines(lines);
    if parsed.None? {
      return None;
    }
    var (seeds, table) := parsed.value;
    var curKey := "seed-to-soil";
    var vals := seeds;
    ghost var k: nat := 0;
    while curKey != "end"
      invariant k <= |Stages| && curKey == StageKey(k) && StagesUpTo(table, k)
      invariant |vals| == |seeds|
      invariant forall i :: 0 <= i < |seeds| ==> vals[i] == LocateUpTo(table, k, seeds[i])
      decreases |Stages| - k
    {
      ChainFollowsStages(k);
      if curKey !in table {
        assert !HasStages(table);
        return None;
      }
      vals := MoveValues(table[curKey], vals);
      curKey := Chain[curKey];
      k := k + 1;
    }
    ChainFollowsStages(k);
    if vals == [] {
      return None;
    }
    assert vals == Locations(table, seeds);
    r := Some(MinOf(vals));
  }

  // ---------------------------------------------------------------------
  // Part 2: ranges of values
  // ---------------------------------------------------------------------

  /** A range of values: (first, last, moved in this section), both ends included. */
  type Range = (int, int, bool)

  /** `is_in_between`: start <= v <= end. */
  predicate Within(start: int, end: int, v: int)
  {
    start <= v <= end
  }

  /**
   * One map line on one range: the range as it stays at its place and the
   * ranges pushed at the end of the list. A range not yet moved in this
   * section that lies inside the line's source is moved whole; one whose
   * first (last) value alone is inside is cut, its inside part moved and
   * pushed. With `straddle`, a range that holds the whole source with values
   * on both sides is cut in three, its middle moved and pushed, its upper
   * part pushed unmoved; without it, as in `p2`, such a range is left as it is.
   */
  function Cut(rule: Rule, r: Range, straddle: bool): (Range, seq<Range>)
  {
    var (dest, src, len) := rule;
    var endSrc := src + len - 1;
    var endDst := dest + len - 1;
    var offset := dest - src;
    if r.2 then (r, [])
    else if Within(src, endSrc, r.0) && Within(src, endSrc, r.1) then ((r.0 + offset, r.1 + offset, true), [])
    else if Within(src, endSrc, r.0) then ((endSrc + 1, r.1, r.2), [(r.0 + offset, endDst, true)])
    else if Within(src, endSrc, r.1) then ((r.0, src - 1, r.2), [(dest, r.1 + offset, true)])
    else if straddle && src <= endSrc && r.0 < src && endSrc < r.1 then
      ((r.0, src - 1, r.2), [(dest, endDst, true), (endSrc + 1, r.1, r.2)])
    else (r, [])
  }

  /** The ranges one range becomes under a map line. */
  function Pieces(rule: Rule, r: Range, straddle: bool): seq<Range>
  {
    [Cut(rule, r, straddle).0] + Cut(rule, r, straddle).1
  }

  /** The ranges at their places after a map line. */
  function Kept(rule: Rule, rs: seq<Range>, straddle: bool): (r: seq<Range>)
    ensures |r| == |rs|
  {
    seq(|rs|, i requires 0 <= i < |rs| => Cut(rule, rs[i], straddle).0)
  }

  /** The ranges a map line pushes, in the order of the ranges they come from. */
  function Pushed(rule: Rule, rs: seq<Range>, straddle: bool): seq<Range>
  {
    if rs == [] then []
    else Pushed(rule, rs[..|rs| - 1], straddle) + Cut(rule, rs[|rs| - 1], straddle).1
  }

  /** The list of ranges after one map line: `for i in 0..cur_ranges.len()` with pushes at the end. */
  function ApplyRule(rule: Rule, rs: seq<Range>, straddle: bool): seq<Range>
  {
    Kept(rule, rs, straddle) + Pushed(rule, rs, straddle)
  }

  /** The map lines of a section applied in order. */
  function ApplyRules(rules: seq<Rule>, rs: seq<Range>, straddle: bool): seq<Range>
  {
    if rules == [] then rs
    else ApplyRule(rules[|rules| - 1], ApplyRules(rules[..|rules| - 1], rs, straddle), straddle)
  }

  /** Every range marked as not moved. */
  function ClearFlags(rs: seq<Range>): (r: seq<Range>)
    ensures |r| == |rs|
  {
    seq(|rs|, i requires 0 <= i < |rs| => (rs[i].0, rs[i].1, false))
  }

  /** One section of `p2`: its map lines, then the flags cleared. */
  function Stage(rules: seq<Rule>, rs: seq<Range>, straddle: bool): seq<Range>
  {
    ClearFlags(ApplyRules(rules, rs, straddle))
  }

  /** The ranges after the first k sections of the chain. */
  function RangesUpTo(table: Table, k: nat, rs: seq<Range>, straddle: bool): seq<Range>
    requires k <= |Stages| && StagesUpTo(table, k)
  {
    if k == 0 then rs else Stage(table[Stages[k - 1]], RangesUpTo(table, k - 1, rs, straddle), straddle)
  }

  /** The seed line read as (start, length) pairs; a last unpaired number is ignored. */
  function SeedRanges(seeds: seq<int>): seq<Range>
  {
    if |seeds| < 2 then [] else [(seeds[0], seeds[0] + seeds[1] - 1, false)] + SeedRanges(seeds[2..])
  }

  /** The i-th pair of the seed line gives the i-th range, and no pair is left out. */
  lemma {:induction false} SeedRangesAt(seeds: seq<int>, i: nat)
    ensures 2 * |SeedRanges(seeds)| <= |seeds| < 2 * |SeedRanges(seeds)| + 2
    ensures 2 * i + 1 < |seeds| ==>
      i < |SeedRanges(seeds)| && SeedRanges(seeds)[i] == (seeds[2 * i], seeds[2 * i] + seeds[2 * i + 1] - 1, false)
  {
    if |seeds| >= 2 {
      if i == 0 {
        SeedRangesAt(seeds[2..], 0);
      } else {
        SeedRangesAt(seeds[2..], i - 1);
      }
    }
  }

  /** The first values of the ranges. */
  function Starts(rs: seq<Range>): (r: seq<int>)
    ensures |r| == |rs|
  {
    seq(|rs|, i requires 0 <= i < |rs| => rs[i].0)
  }

  /** The lowest first value of the ranges after all seven sections. */
  function LowestStart(table: Table, seeds: seq<int>, straddle: bool): Option<int>
    requires HasStages(table)
  {
    var final := RangesUpTo(table, |Stages|, SeedRanges(seeds), straddle);
    if final == [] then None else Some(MinOf(Starts(final)))
  }

  /**
   * `p2`; `straddle` as in `Cut`. Fails when parsing fails, when there are no
   * seed numbers (`seeds.len() - 1` underflows), when a section is missing,
   * or when no range is left (a single seed number).
   */
  function Part2(lines: seq<string>, straddle: bool): Option<int>
  {
    match Parse(lines)
    case None => None
    case Some((seeds, table)) =>
      if seeds == [] || !HasStages(table) then None
      else LowestStart(table, seeds, straddle)
  }

  /** The branches of `p2` for one map line and one range. */
  method CutRange(rule: Rule, cur: Range, straddle: bool) returns (kept: Range, pushed: seq<Range>)
    ensures (kept, pushed) == Cut(rule, cur, straddle)
  {
    var (startDest, startSrc, length) := rule;
    var (curStart, curEnd, curMod) := cur;
    var endSrc := startSrc + length - 1;
    var endDst := startDest + length - 1;
    var mapOffset := startDest - startSrc;
    var mapStart := curStart + mapOffset;
    var mapEnd := curEnd + mapOffset;
    kept, pushed := cur, [];
    if !curMod {
      if Within(startSrc, endSrc, curStart) && Within(startSrc, endSrc, curEnd) {
        kept := (mapStart, mapEnd, true);
      } else if Within(startSrc, endSrc, curStart) {
        kept, pushed := (endSrc + 1, curEnd, curMod), [(mapStart, endDst, true)];
      } else if Within(startSrc, endSrc, curEnd) {
        kept, pushed := (curStart, startSrc - 1, curMod), [(startDest, mapEnd, true)];
      } else if straddle && startSrc <= endSrc && curStart < startSrc && endSrc < curEnd {
        kept, pushed := (curStart, startSrc - 1, curMod), [(startDest, endDst, true), (endSrc + 1, curEnd, curMod)];
      }
    }
  }

  /** The ranges pushed for one more range of the list. */
  lemma PushedStep(rule: Rule, rs: seq<Range>, i: nat, straddle: bool)
    requires i < |rs|
    ensures Pushed(rule, rs[..i + 1], straddle) == Pushed(rule, rs[..i], straddle) + Cut(rule, rs[i], straddle).1
  {
    assert rs[..i + 1][..i] == rs[..i] && rs[..i + 1][i] == rs[i];
  }

  /** The loop over the ranges for one map line in `p2`. */
  method ApplyRuleInPlace(rule: Rule, ranges0: seq<Range>, straddle: bool) returns (ranges: seq<Range>)
    ensures ranges == ApplyRule(rule, ranges0, straddle)
  {
    ranges := ranges0;
    var n := |ranges|;
    for i := 0 to n
      invariant |ranges| == n + |Pushed(rule, ranges0[..i], straddle)|
      invariant forall j :: 0 <= j < i ==> ranges[j] == Cut(rule, ranges0[j], straddle).0
      invariant forall j :: i <= j < n ==> ranges[j] == ranges0[j]
      invariant ranges[n..] == Pushed(rule, ranges0[..i], straddle)
    {
      PushedStep(rule, ranges0, i, straddle);
      var kept, pushed := CutRange(rule, ranges[i], straddle);
      ranges := ranges[i := kept] + pushed;
    }
    assert ranges0[..n] == ranges0;
    assert ranges == ranges[..n] + ranges[n..];
  }

  /** One section of `p2`: each map line over the list, then the flags cleared. */
  method ApplyStage(rules: seq<Rule>, ranges0: seq<Range>, straddle: bool) returns (ranges: seq<Range>)
    ensures ranges == Stage(rules, ranges0, straddle)
  {
    ranges := ranges0;
    for t := 0 to |rules|
      invariant ranges == ApplyRules(rules[..t], ranges0, straddle)
    {
      assert rules[..t + 1][..t] == rules[..t] && rules[..t + 1][t] == rules[t];
      ranges := ApplyRuleInPlace(rules[t], ranges, straddle);
    }
    assert rules[..|rules|] == rules;
    ghost var applied := ranges;
    for i := 0 to |ranges|
      invariant |ranges| == |applied|
      invariant forall j :: 0 <= j < i ==> ranges[j] == (applied[j].0, applied[j].1, false)
      invariant forall j :: i <= j < |ranges| ==> ranges[j] == applied[j]
    {
      ranges := ranges[i := (ranges[i].0, ranges[i].1, false)];
    }
  }

  /** The `step_by(2)` loop of `p2` over a non-empty seed line. */
  method ReadSeedRanges(seeds: seq<int>) returns (ranges: seq<Range>)
    requires seeds != []
    ensures ranges == SeedRanges(seeds)
  {
    ranges := [];
    var i := 0;
    while i < |seeds| - 1
      invariant i <= |seeds|
      invariant ranges + SeedRanges(seeds[i..]) == SeedRanges(seeds)
    {
      assert seeds[i..][2..] == seeds[i + 2..];
      ranges := ranges + [(seeds[i], seeds[i] + seeds[i + 1] - 1, false)];
      i := i + 2;
    }
  }

  /** `p2`: the seed ranges go through the sections along `Chain` until "end". */
  method P2(lines: seq<string>, straddle: bool) returns (r: Option<int>)
    ensures r == Part2(lines, straddle)
  {
    var parsed := ParseLines(lines);
    if parsed.None? {
      return None;
    }
    var (seeds, table) := parsed.value;
    if seeds == [] {
      return None;
    }
    r := Lowest2(table, seeds, straddle);
  }

  /** `p2` after parsing, on a non-empty seed line. */
  method Lowest2(table: Table, seeds: seq<int>, straddle: bool) returns (r: Option<int>)
    requires seeds != []
    ensures r == if HasStages(table) then LowestStart(table, seeds, straddle) else None
  {
    var ranges := ReadSeedRanges(seeds);
    ghost var start := ranges;
    var curKey := "seed-to-soil";
    ghost var k: nat := 0;
    while curKey != "end"
      invariant k <= |Stages| && curKey == StageKey(k) && StagesUpTo(table, k)
      invariant ranges == RangesUpTo(table, k, start, straddle)
      decreases |Stages| - k
    {
      ChainFollowsStages(k);
      if curKey !in table {
        assert !HasStages(table);
        return None;
      }
      ranges := ApplyStage(table[curKey], ranges, straddle);
      curKey := Chain[curKey];
      k := k + 1;
    }
    ChainFollowsStages(k);
    if ranges == [] {
      return None;
    }
    r := Some(MinOf(Starts(ranges)));
  }

  // ---------------------------------------------------------------------
  // What the ranges stand for
  // ---------------------------------------------------------------------

  /** Some range of the list holds x, with moved flag f. */
  predicate Holds(rs: seq<Range>, x: int, f: bool)
  {
    exists e :: 0 <= e < |rs| && Within(rs[e].0, rs[e].1, x) && rs[e].2 == f
  }

  /** No range of the list is empty. */
  predicate WellFormed(rs: seq<Range>)
  {
    forall e :: 0 <= e < |rs| ==> rs[e].0 <= rs[e].1
  }

  /** No range of the list is marked as moved. */
  predicate Clear(rs: seq<Range>)
  {
    forall e :: 0 <= e < |rs| ==> !rs[e].2
  }

  /** Cutting a non-empty range gives non-empty ranges. */
  lemma CutWellFormed(rule: Rule, r: Range, straddle: bool)
    requires r.0 <= r.1
    ensures WellFormed(Pieces(rule, r, straddle))
  {
  }

  /**
   * With `straddle`, every value the pieces hold comes from a value of the
   * range, moved (and flagged) as a single value is by the same map line.
   */
  lemma CutBackward(rule: Rule, r: Range, e: nat, x: int, f: bool) returns (v: int)
    requires r.0 <= r.1
    requires e < |Pieces(rule, r, true)|
    requires Within(Pieces(rule, r, true)[e].0, Pieces(rule, r, true)[e].1, x)
    requires Pieces(rule, r, true)[e].2 == f
    ensures Within(r.0, r.1, v) && MapOnce(rule, (v, r.2)) == (x, f)
  {
    var (dest, src, len) := rule;
    var endSrc := src + len - 1;
    v := if !r.2 && f then x - (dest - src) else x;
    if r.2 {
    } else if Within(src, endSrc, r.0) && Within(src, endSrc, r.1) {
    } else if Within(src, endSrc, r.0) {
      assert e == 1 ==> InSource(rule, v);
    } else if Within(src, endSrc, r.1) {
      assert e == 1 ==> InSource(rule, v);
    } else if src <= endSrc && r.0 < src && endSrc < r.1 {
      assert e == 1 ==> InSource(rule, v);
    } else {
      assert !InSource(rule, v);
    }
  }

  /**
   * With `straddle`, every value of the range is held by the pieces where a
   * single value would be moved by the same map line.
   */
  lemma CutForward(rule: Rule, r: Range, v: int) returns (e: nat)
    requires Within(r.0, r.1, v)
    ensures e < |Pieces(rule, r, true)|
    ensures Within(Pieces(rule, r, true)[e].0, Pieces(rule, r, true)[e].1, MapOnce(rule, (v, r.2)).0)
    ensures Pieces(rule, r, true)[e].2 == MapOnce(rule, (v, r.2)).1
  {
    var (dest, src, len) := rule;
    var endSrc := src + len - 1;
    if r.2 || !InSource(rule, v) {
      e := if !r.2 && Within(src, endSrc, r.0) && !Within(src, endSrc, r.1) then 0
        else if !r.2 && v > endSrc && src <= endSrc && r.0 < src then 2
        else 0;
    } else if Within(src, endSrc, r.0) && Within(src, endSrc, r.1) {
      e := 0;
    } else {
      e := 1;
    }
  }

  /** The i-th range pushed comes from some range of the list. */
  lemma {:induction false} PushedFrom(rule: Rule, rs: seq<Range>, straddle: bool, j: nat) returns (i: nat, q: nat)
    requires j < |Pushed(rule, rs, straddle)|
    ensures i < |rs| && q < |Cut(rule, rs[i], straddle).1|
    ensures Pushed(rule, rs, straddle)[j] == Cut(rule, rs[i], straddle).1[q]
  {
    var init := rs[..|rs| - 1];
    if j < |Pushed(rule, init, straddle)| {
      i, q := PushedFrom(rule, init, straddle, j);
      assert init[i] == rs[i];
    } else {
      i, q := |rs| - 1, j - |Pushed(rule, init, straddle)|;
    }
  }

  /** Whatever a range of the list pushes is in the list of pushed ranges. */
  lemma {:induction false} PushedHas(rule: Rule, rs: seq<Range>, straddle: bool, i: nat, q: nat) returns (j: nat)
    requires i < |rs| && q < |Cut(rule, rs[i], straddle).1|
    ensures j < |Pushed(rule, rs, straddle)|
    ensures Pushed(rule, rs, straddle)[j] == Cut(rule, rs[i], straddle).1[q]
  {
    var init := rs[..|rs| - 1];
    if i == |rs| - 1 {
      j := |Pushed(rule, init, straddle)| + q;
    } else {
      assert init[i] == rs[i];
      j := PushedHas(rule, init, straddle, i, q);
    }
  }

  /** A map line keeps the ranges non-empty. */
  lemma ApplyRuleWellFormed(rule: Rule, rs: seq<Range>, straddle: bool)
    requires WellFormed(rs)
    ensures WellFormed(ApplyRule(rule, rs, straddle))
  {
    var a := ApplyRule(rule, rs, straddle);
    forall e | 0 <= e < |a|
      ensures a[e].0 <= a[e].1
    {
      if e < |rs| {
        CutWellFormed(rule, rs[e], straddle);
        assert a[e] == Pieces(rule, rs[e], straddle)[0];
      } else {
        var i, q := PushedFrom(rule, rs, straddle, e - |rs|);
        CutWellFormed(rule, rs[i], straddle);
        assert a[e] == Pieces(rule, rs[i], straddle)[q + 1];
      }
    }
  }

  /** Backward through one map line, with `straddle`: a value held afterwards is the image of a value held before. */
  lemma ApplyBackward(rule: Rule, rs: seq<Range>, e: nat, x: int, f: bool) returns (i: nat, v: int)
    requires WellFormed(rs)
    requires e < |ApplyRule(rule, rs, true)|
    requires Within(ApplyRule(rule, rs, true)[e].0, ApplyRule(rule, rs, true)[e].1, x)
    requires ApplyRule(rule, rs, true)[e].2 == f
    ensures i < |rs| && Within(rs[i].0, rs[i].1, v) && MapOnce(rule, (v, rs[i].2)) == (x, f)
  {
    var a := ApplyRule(rule, rs, true);
    if e < |rs| {
      i := e;
      assert a[e] == Pieces(rule, rs[i], true)[0];
      v := CutBackward(rule, rs[i], 0, x, f);
    } else {
      var q;
      i, q := PushedFrom(rule, rs, true, e - |rs|);
      assert a[e] == Pieces(rule, rs[i], true)[q + 1];
      v := CutBackward(rule, rs[i], q + 1, x, f);
    }
  }

  /** Forward through one map line, with `straddle`: the image of a value held before is held afterwards. */
  lemma ApplyForward(rule: Rule, rs: seq<Range>, i: nat, v: int) returns (e: nat)
    requires i < |rs| && Within(rs[i].0, rs[i].1, v)
    ensures e < |ApplyRule(rule, rs, true)|
    ensures Within(ApplyRule(rule, rs, true)[e].0, ApplyRule(rule, rs, true)[e].1, MapOnce(rule, (v, rs[i].2)).0)
    ensures ApplyRule(rule, rs, true)[e].2 == MapOnce(rule, (v, rs[i].2)).1
  {
    var a := ApplyRule(rule, rs, true);
    var p := CutForward(rule, rs[i], v);
    if p == 0 {
      e := i;
    } else {
      var j := PushedHas(rule, rs, true, i, p - 1);
      e := |rs| + j;
    }
    assert a[e] == Pieces(rule, rs[i], true)[p];
  }

  /** The map lines of a section keep the ranges non-empty. */
  lemma {:induction false} ApplyRulesWellFormed(rules: seq<Rule>, rs: seq<Range>, straddle: bool)
    requires WellFormed(rs)
    ensures WellFormed(ApplyRules(rules, rs, straddle))
  {
    if rules != [] {
      ApplyRulesWellFormed(rules[..|rules| - 1], rs, straddle);
      ApplyRuleWellFormed(rules[|rules| - 1], ApplyRules(rules[..|rules| - 1], rs, straddle), straddle);
    }
  }

  /** Forward through a section's map lines, with `straddle`: each value is held where `Pass` sends it. */
  lemma {:induction false} ApplyRulesForward(rules: seq<Rule>, rs: seq<Range>, i: nat, v: int) returns (e: nat)
    requires i < |rs| && Within(rs[i].0, rs[i].1, v)
    ensures e < |ApplyRules(rules, rs, true)|
    ensures Within(ApplyRules(rules, rs, true)[e].0, ApplyRules(rules, rs, true)[e].1, Pass(rules, (v, rs[i].2)).0)
    ensures ApplyRules(rules, rs, true)[e].2 == Pass(rules, (v, rs[i].2)).1
  {
    if rules == [] {
      e := i;
    } else {
      var init := rules[..|rules| - 1];
      var e0 := ApplyRulesForward(init, rs, i, v);
      e := ApplyForward(rules[|rules| - 1], ApplyRules(init, rs, true), e0, Pass(init, (v, rs[i].2)).0);
    }
  }

  /** Backward through a section's map lines, with `straddle`: each value held comes by `Pass` from one held before. */
  lemma {:induction false} ApplyRulesBackward(rules: seq<Rule>, rs: seq<Range>, e: nat, x: int, f: bool) returns (i: nat, v: int)
    requires WellFormed(rs)
    requires e < |ApplyRules(rules, rs, true)|
    requires Within(ApplyRules(rules, rs, true)[e].0, ApplyRules(rules, rs, true)[e].1, x)
    requires ApplyRules(rules, rs, true)[e].2 == f
    ensures i < |rs| && Within(rs[i].0, rs[i].1, v) && Pass(rules, (v, rs[i].2)) == (x, f)
  {
    if rules == [] {
      i, v := e, x;
    } else {
      var init := rules[..|rules| - 1];
      var before := ApplyRules(init, rs, true);
      ApplyRulesWellFormed(init, rs, true);
      var e0, w := ApplyBackward(rules[|rules| - 1], before, e, x, f);
      i, v := ApplyRulesBackward(init, rs, e0, w, before[e0].2);
    }
  }

  /** After any number of sections the ranges stay non-empty and, past the first, unflagged. */
  lemma {:induction false} RangesWellFormed(table: Table, k: nat, rs: seq<Range>, straddle: bool)
    requires k <= |Stages| && StagesUpTo(table, k)
    requires WellFormed(rs) && Clear(rs)
    ensures WellFormed(RangesUpTo(table, k, rs, straddle)) && Clear(RangesUpTo(table, k, rs, straddle))
  {
    if k > 0 {
      RangesWellFormed(table, k - 1, rs, straddle);
      ApplyRulesWellFormed(table[Stages[k - 1]], RangesUpTo(table, k - 1, rs, straddle), straddle);
    }
  }

  /** With `straddle`, every value of the seed ranges is held, taken through the first k sections. */
  lemma {:induction false} ChainForward(table: Table, k: nat, rs: seq<Range>, i: nat, v: int) returns (e: nat)
    requires k <= |Stages| && StagesUpTo(table, k)
    requires Clear(rs) && i < |rs| && Within(rs[i].0, rs[i].1, v)
    ensures e < |RangesUpTo(table, k, rs, true)|
    ensures Within(RangesUpTo(table, k, rs, true)[e].0, RangesUpTo(table, k, rs, true)[e].1, LocateUpTo(table, k, v))
    ensures !RangesUpTo(table, k, rs, true)[e].2
  {
    if k == 0 {
      e := i;
    } else {
      var rules := table[Stages[k - 1]];
      var w := LocateUpTo(table, k - 1, v);
      var e0 := ChainForward(table, k - 1, rs, i, v);
      e := ApplyRulesForward(rules, RangesUpTo(table, k - 1, rs, true), e0, w);
      PassIsFirstMatch(rules, w);
    }
  }

  /** With `straddle`, every value held after the first k sections is where some seed value is taken. */
  lemma {:induction false} ChainBackward(table: Table, k: nat, rs: seq<Range>, e: nat, x: int) returns (i: nat, v: int)
    requires k <= |Stages| && StagesUpTo(table, k)
    requires WellFormed(rs) && Clear(rs)
    requires e < |RangesUpTo(table, k, rs, true)|
    requires Within(RangesUpTo(table, k, rs, true)[e].0, RangesUpTo(table, k, rs, true)[e].1, x)
    ensures i < |rs| && Within(rs[i].0, rs[i].1, v) && x == LocateUpTo(table, k, v)
  {
    if k == 0 {
      i, v := e, x;
    } else {
      var before := RangesUpTo(table, k - 1, rs, true);
      RangesWellFormed(table, k - 1, rs, true);
      var e0, w := StageBackward(table[Stages[k - 1]], before, e, x);
      i, v := ChainBackward(table, k - 1, rs, e0, w);
    }
  }

  /** With `straddle`, every value held after a section is where the section takes some value held before. */
  lemma StageBackward(rules: seq<Rule>, before: seq<Range>, e: nat, x: int) returns (e0: nat, w: int)
    requires WellFormed(before) && Clear(before)
    requires e < |Stage(rules, before, true)|
    requires Within(Stage(rules, before, true)[e].0, Stage(rules, before, true)[e].1, x)
    ensures e0 < |before| && Within(before[e0].0, before[e0].1, w) && x == FirstMatch(rules, w)
  {
    var applied := ApplyRules(rules, before, true);
    e0, w := ApplyRulesBackward(rules, before, e, x, applied[e].2);
    PassIsFirstMatch(rules, w);
  }

  /** The number of ranges never drops, and no ranges stay no ranges. */
  lemma {:induction false} RangesCount(table: Table, k: nat, rs: seq<Range>, straddle: bool)
    requires k <= |Stages| && StagesUpTo(table, k)
    ensures |rs| <= |RangesUpTo(table, k, rs, straddle)|
    ensures rs == [] ==> RangesUpTo(table, k, rs, straddle) == []
  {
    if k > 0 {
      RangesCount(table, k - 1, rs, straddle);
      RulesCount(table[Stages[k - 1]], RangesUpTo(table, k - 1, rs, straddle), straddle);
    }
  }

  /** A section's map lines never drop a range, and add none to an empty list. */
  lemma {:induction false} RulesCount(rules: seq<Rule>, rs: seq<Range>, straddle: bool)
    ensures |rs| <= |ApplyRules(rules, rs, straddle)|
    ensures rs == [] ==> ApplyRules(rules, rs, straddle) == []
  {
    if rules != [] {
      RulesCount(rules[..|rules| - 1], rs, straddle);
    }
  }

  /** v is a value of one of the seed ranges. */
  predicate SeedValue(seeds: seq<int>, v: int)
  {
    exists i :: 0 <= i < |SeedRanges(seeds)| && Within(SeedRanges(seeds)[i].0, SeedRanges(seeds)[i].1, v)
  }

  /** Every length on the seed line is at least one. */
  predicate PositiveLengths(seeds: seq<int>)
  {
    WellFormed(SeedRanges(seeds))
  }

  /** The seed ranges start unflagged. */
  lemma {:induction false} SeedRangesClear(seeds: seq<int>)
    ensures Clear(SeedRanges(seeds))
  {
    if |seeds| >= 2 {
      SeedRangesClear(seeds[2..]);
    }
  }

  /**
   * With `straddle`, the answer of part 2 is the lowest location of all seed
   * values: it exists exactly when there is a seed range, it is the location
   * of some seed value, and no seed value has a lower location.
   */
  lemma LowestStartMeaning(table: Table, seeds: seq<int>)
    requires HasStages(table) && PositiveLengths(seeds)
    ensures LowestStart(table, seeds, true).Some? <==> |seeds| >= 2
    ensures LowestStart(table, seeds, true).Some? ==>
      exists v :: SeedValue(seeds, v) && LowestStart(table, seeds, true).value == Location(table, v)
    ensures LowestStart(table, seeds, true).Some? ==>
      forall v :: SeedValue(seeds, v) ==> LowestStart(table, seeds, true).value <= Location(table, v)
  {
    var rs := SeedRanges(seeds);
    var final := RangesUpTo(table, |Stages|, rs, true);
    SeedRangesClear(seeds);
    SeedRangesAt(seeds, 0);
    RangesCount(table, |Stages|, rs, true);
    if final != [] {
      var m := MinOf(Starts(final));
      RangesWellFormed(table, |Stages|, rs, true);
      var e :| 0 <= e < |final| && Starts(final)[e] == m;
      var i, v := ChainBackward(table, |Stages|, rs, e, m);
      assert SeedValue(seeds, v) && m == Location(table, v);
      forall u | SeedValue(seeds, u)
        ensures m <= Location(table, u)
      {
        var j :| 0 <= j < |rs| && Within(rs[j].0, rs[j].1, u);
        var d := ChainForward(table, |Stages|, rs, j, u);
        assert Starts(final)[d] in Starts(final);
      }
    }
  }

  // ---------------------------------------------------------------------
  // A range that holds a map line's whole source
  // ---------------------------------------------------------------------

  /**
   * In `p2` as written, the range 1..10 holds the whole source 5..6 of the
   * map line "0 5 2" and is left unmoved, though the line moves 5 to 0; cut
   * in three, its middle is moved.
   */
  lemma StraddleMissed()
    ensures MapOnce((0, 5, 2), (5, false)) == (0, true)
    ensures ApplyRule((0, 5, 2), [(1, 10, false)], false) == [(1, 10, false)]
    ensures !Holds(ApplyRule((0, 5, 2), [(1, 10, false)], false), 0, true)
    ensures ApplyRule((0, 5, 2), [(1, 10, false)], true) == [(1, 4, false), (0, 1, true), (7, 10, false)]
  {
  }

  /** The two readings of `Cut` differ only on a range that holds the whole, non-empty source with values on both sides. */
  lemma StraddleOnly(rule: Rule, r: Range)
    ensures Cut(rule, r, false) != Cut(rule, r, true) <==>
      !r.2 && rule.2 > 0 && r.0 < rule.1 && rule.1 + rule.2 - 1 < r.1
  {
  }

  /** An almanac whose first two sections hold the given lines and whose other sections move nothing. */
  function TwoSections(first: Rule, second: Rule): (t: Table)
    ensures HasStages(t)
  {
    map key | key in Stages :: if key == Stages[0] then [first] else if key == Stages[1] then [second] else [(0, 0, 0)]
  }

  /** The lines of each section of `TwoSections`. */
  lemma TwoSectionsLines(first: Rule, second: Rule, j: nat)
    requires j < |Stages|
    ensures TwoSections(first, second)[Stages[j]] == if j == 0 then [first] else if j == 1 then [second] else [(0, 0, 0)]
  {
    assert Stages[0][0] == Stages[1][0] == 's' && Stages[0][1] != Stages[1][1];
    assert j >= 2 ==> Stages[j][0] != 's';
  }

  /** A map line of length 0 moves nothing. */
  lemma {:induction false} EmptyRulePushesNothing(rs: seq<Range>, straddle: bool)
    ensures Pushed((0, 0, 0), rs, straddle) == []
    ensures Kept((0, 0, 0), rs, straddle) == rs
  {
    if rs != [] {
      EmptyRulePushesNothing(rs[..|rs| - 1], straddle);
    }
  }

  /** The sections after the first two of `TwoSections` leave unflagged ranges as they are. */
  lemma {:induction false} LaterSectionsKeep(first: Rule, second: Rule, k: nat, rs: seq<Range>, straddle: bool)
    requires 2 <= k <= |Stages|
    requires Clear(RangesUpTo(TwoSections(first, second), 2, rs, straddle))
    ensures RangesUpTo(TwoSections(first, second), k, rs, straddle) == RangesUpTo(TwoSections(first, second), 2, rs, straddle)
  {
    if k > 2 {
      var t := TwoSections(first, second);
      TwoSectionsLines(first, second, k - 1);
      LaterSectionsKeep(first, second, k - 1, rs, straddle);
      EmptyRuleStage(RangesUpTo(t, k - 1, rs, straddle), straddle);
    }
  }

  /** A section whose only line has length 0 leaves unflagged ranges as they are. */
  lemma EmptyRuleStage(rs: seq<Range>, straddle: bool)
    requires Clear(rs)
    ensures Stage([(0, 0, 0)], rs, straddle) == rs
  {
    OneLineStage((0, 0, 0), rs, straddle);
    EmptyRulePushesNothing(rs, straddle);
    assert Kept((0, 0, 0), rs, straddle) + Pushed((0, 0, 0), rs, straddle) == rs;
  }

  /** A section with a single map line. */
  lemma OneLineStage(rule: Rule, rs: seq<Range>, straddle: bool)
    ensures Stage([rule], rs, straddle) == ClearFlags(Kept(rule, rs, straddle) + Pushed(rule, rs, straddle))
  {
    assert [rule][..0] == [] && [rule][0] == rule;
    assert ApplyRules([rule], rs, straddle) == ApplyRule(rule, ApplyRules([], rs, straddle), straddle);
  }

  /** The first section of the counterexample below, as written: the range straddles 7..8 and stays. */
  lemma AsWrittenFirst()
    ensures Stage([(100, 7, 2)], [(5, 14, false)], false) == [(5, 14, false)]
  {
    var rs := [(5, 14, false)];
    OneLineStage((100, 7, 2), rs, false);
    assert Cut((100, 7, 2), (5, 14, false), false) == ((5, 14, false), []);
    assert Kept((100, 7, 2), rs, false) == rs;
    assert Pushed((100, 7, 2), rs, false) == [];
    assert ClearFlags(rs) == rs;
  }

  /** The second section of the counterexample below, as written: 7..14 goes to 0..7. */
  lemma AsWrittenSecond()
    ensures Stage([(0, 7, 8)], [(5, 14, false)], false) == [(5, 6, false), (0, 7, false)]
  {
    var rs := [(5, 14, false)];
    OneLineStage((0, 7, 8), rs, false);
    assert Cut((0, 7, 8), (5, 14, false), false) == ((5, 6, false), [(0, 7, true)]);
    assert Kept((0, 7, 8), rs, false) == [(5, 6, false)];
    assert Pushed((0, 7, 8), rs, false) == [(0, 7, true)];
    assert ClearFlags([(5, 6, false), (0, 7, true)]) == [(5, 6, false), (0, 7, false)];
  }

  /** The first section of the counterexample below, cut in three: 7..8 goes to 100..101. */
  lemma CutFirst()
    ensures Stage([(100, 7, 2)], [(5, 14, false)], true) == [(5, 6, false), (100, 101, false), (9, 14, false)]
  {
    var rs := [(5, 14, false)];
    OneLineStage((100, 7, 2), rs, true);
    assert Cut((100, 7, 2), (5, 14, false), true) == ((5, 6, false), [(100, 101, true), (9, 14, false)]);
    assert Kept((100, 7, 2), rs, true) == [(5, 6, false)];
    assert Pushed((100, 7, 2), rs, true) == [(100, 101, true), (9, 14, false)];
    var cleared := ClearFlags([(5, 6, false), (100, 101, true), (9, 14, false)]);
    assert cleared[0] == (5, 6, false) && cleared[1] == (100, 101, false) && cleared[2] == (9, 14, false);
  }

  /** The second section of the counterexample below, cut in three: 9..14 goes to 2..7. */
  lemma CutSecond()
    ensures Stage([(0, 7, 8)], [(5, 6, false), (100, 101, false), (9, 14, false)], true)
      == [(5, 6, false), (100, 101, false), (2, 7, false)]
  {
    var one := [(5, 6, false), (100, 101, false), (9, 14, false)];
    OneLineStage((0, 7, 8), one, true);
    assert Cut((0, 7, 8), (5, 6, false), true) == ((5, 6, false), []);
    assert Cut((0, 7, 8), (100, 101, false), true) == ((100, 101, false), []);
    assert Cut((0, 7, 8), (9, 14, false), true) == ((2, 7, true), []);
    var kept := Kept((0, 7, 8), one, true);
    assert kept[0] == (5, 6, false) && kept[1] == (100, 101, false) && kept[2] == (2, 7, true);
    assert one[..2][..1] == [(5, 6, false)] && one[..2] == [(5, 6, false), (100, 101, false)];
    assert Pushed((0, 7, 8), [(5, 6, false)], true) == [];
    assert Pushed((0, 7, 8), one[..2], true) == [];
    assert Pushed((0, 7, 8), one, true) == [];
    var cleared := ClearFlags(kept);
    assert cleared[0] == (5, 6, false) && cleared[1] == (100, 101, false) && cleared[2] == (2, 7, false);
  }

  /** The first two sections of the counterexample below, as written and cut in three. */
  lemma CounterexampleSections()
    ensures RangesUpTo(TwoSections((100, 7, 2), (0, 7, 8)), 2, [(5, 14, false)], false) == [(5, 6, false), (0, 7, false)]
    ensures RangesUpTo(TwoSections((100, 7, 2), (0, 7, 8)), 2, [(5, 14, false)], true)
      == [(5, 6, false), (100, 101, false), (2, 7, false)]
  {
    TwoSectionsLines((100, 7, 2), (0, 7, 8), 0);
    TwoSectionsLines((100, 7, 2), (0, 7, 8), 1);
    AsWrittenFirst();
    AsWrittenSecond();
    CutFirst();
    CutSecond();
  }

  /** The ranges of the counterexample below after all seven sections. */
  lemma CounterexampleRanges(straddle: bool)
    ensures RangesUpTo(TwoSections((100, 7, 2), (0, 7, 8)), |Stages|, SeedRanges([5, 10]), straddle)
      == if straddle then [(5, 6, false), (100, 101, false), (2, 7, false)] else [(5, 6, false), (0, 7, false)]
  {
    assert SeedRanges([5, 10]) == [(5, 14, false)];
    CounterexampleSections();
    LaterSectionsKeep((100, 7, 2), (0, 7, 8), |Stages|, [(5, 14, false)], straddle);
  }

  /** The counterexample below answers 0 as written. */
  lemma AsWrittenAnswer()
    ensures LowestStart(TwoSections((100, 7, 2), (0, 7, 8)), [5, 10], false) == Some(0)
  {
    var final := [(5, 6, false), (0, 7, false)];
    assert MinOf(Starts(final)) == 0 by {
      assert Starts(final) == [5, 0] && Starts(final)[1..] == [0];
    }
    CounterexampleRanges(false);
  }

  /** The counterexample below answers 2 with the straddling range cut. */
  lemma CutAnswer()
    ensures LowestStart(TwoSections((100, 7, 2), (0, 7, 8)), [5, 10], true) == Some(2)
  {
    var final := [(5, 6, false), (100, 101, false), (2, 7, false)];
    assert MinOf(Starts(final)) == 2 by {
      var starts := Starts(final);
      assert starts == [5, 100, 2];
      assert starts[1..] == [100, 2] && starts[1..][1..] == [2];
    }
    CounterexampleRanges(true);
  }

  /**
   * Seeds "5 10" (values 5..14), then "100 7 2" and "0 7 8": the values 7
   * and 8 should go to 100 and 101 and stay there, but `p2` as written leaves
   * them in place, and the second section then takes 7 to 0. It answers 0,
   * below every seed's location; cutting the straddling range answers 2.
   */
  lemma StraddleUnderReports()
    ensures LowestStart(TwoSections((100, 7, 2), (0, 7, 8)), [5, 10], false) == Some(0)
    ensures LowestStart(TwoSections((100, 7, 2), (0, 7, 8)), [5, 10], true) == Some(2)
    ensures forall v :: SeedValue([5, 10], v) ==> Location(TwoSections((100, 7, 2), (0, 7, 8)), v) >= 2
  {
    AsWrittenAnswer();
    CutAnswer();
    assert SeedRanges([5, 10]) == [(5, 14, false)];
    LowestStartMeaning(TwoSections((100, 7, 2), (0, 7, 8)), [5, 10]);
  }
}
