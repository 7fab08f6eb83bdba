/**
 * Day 19 (src/d19.rs): machine parts with ratings x, m, a, s are sent
 * through named workflows of comparison rules.  Part one sums the ratings of
 * the parts that end up accepted; part two splits the box [1,4000]^4 along
 * the rules and adds up the volume of the boxes that reach `Accepted`.
 */
module D19 {
  import opened Wrappers
  import opened Text

  datatype Condition = LessThan | GreaterThan | LessThanEqual | GreaterThanEqual | Always
  datatype NextWorkflow = Workflow(name: string) | Accepted | Rejected
  datatype Rule = Rule(variable: string, value: nat, condition: Condition, next: NextWorkflow)

  /** Workflow name to its rules; a later line with the same name replaces the earlier one. */
  type Workflows = map<string, seq<Rule>>

  /** A part's rating as `(variable, value)` pairs (the source's `HashMap<String, usize>`). */
  type Rating = seq<(string, nat)>

  // ---------------------------------------------------------------------------
  // Ratings

  /** `HashMap::get` on a rating. */
  function Lookup(r: Rating, v: string): (o: Option<nat>)
    ensures o.None? <==> forall i :: 0 <= i < |r| ==> r[i].0 != v
    ensures o.Some? ==> (v, o.value) in r
  {
    if r == [] then None
    else if r[0].0 == v then Some(r[0].1)
    else
      var o := Lookup(r[1..], v);
      assert forall i :: 1 <= i < |r| ==> r[i] == r[1..][i - 1];
      o
  }

  predicate UniqueKeys(r: Rating)
  {
    forall i, j :: 0 <= i < j < |r| ==> r[i].0 != r[j].0
  }

  /** `HashMap::insert`: overwrite the value of a present variable, else add the pair. */
  function Insert(r: Rating, v: string, n: nat): Rating
  {
    if r == [] then [(v, n)]
    else if r[0].0 == v then [(v, n)] + r[1..]
    else [r[0]] + Insert(r[1..], v, n)
  }

  /** Inserting sets the variable's value, leaves every other variable alone and appends a new variable at the end. */
  lemma {:induction false} InsertLookup(r: Rating, v: string, n: nat)
    ensures Lookup(Insert(r, v, n), v) == Some(n)
    ensures forall w :: w != v ==> Lookup(Insert(r, v, n), w) == Lookup(r, w)
    ensures Lookup(r, v).None? ==> Insert(r, v, n) == r + [(v, n)]
  {
    if r != [] {
      assert r == [r[0]] + r[1..];
      LookupCons(r[0], r[1..]);
      if r[0].0 == v {
        LookupCons((v, n), r[1..]);
      } else {
        var rest := Insert(r[1..], v, n);
        InsertLookup(r[1..], v, n);
        LookupCons(r[0], rest);
        if Lookup(r, v).None? {
          assert rest == r[1..] + [(v, n)];
          assert [r[0]] + rest == r + [(v, n)];
        }
      }
    }
  }

  /** Inserting keeps the variables of a rating unique. */
  lemma {:induction false} InsertUnique(r: Rating, v: string, n: nat)
    requires UniqueKeys(r)
    ensures UniqueKeys(Insert(r, v, n))
  {
    if r != [] {
      assert r == [r[0]] + r[1..];
      UniqueCons(r[0], r[1..]);
      if r[0].0 == v {
        UniqueCons((v, n), r[1..]);
      } else {
        var rest := Insert(r[1..], v, n);
        InsertUnique(r[1..], v, n);
        InsertLookup(r[1..], v, n);
        UniqueCons(r[0], rest);
      }
    }
  }

  /** Looking up in a rating with a first pair: that pair answers for its own variable. */
  lemma LookupCons(x: (string, nat), rest: Rating)
    ensures Lookup([x] + rest, x.0) == Some(x.1)
    ensures forall w :: w != x.0 ==> Lookup([x] + rest, w) == Lookup(rest, w)
  {
    assert ([x] + rest)[1..] == rest;
  }

  /** A rating with a first pair has unique variables exactly when the rest has and lacks that pair's variable. */
  lemma UniqueCons(x: (string, nat), rest: Rating)
    ensures UniqueKeys([x] + rest) <==> UniqueKeys(rest) && Lookup(rest, x.0).None?
  {
    var r := [x] + rest;
    if UniqueKeys(r) {
      forall i, j | 0 <= i < j < |rest| ensures rest[i].0 != rest[j].0 {
        assert rest[i] == r[i + 1] && rest[j] == r[j + 1];
      }
      forall i | 0 <= i < |rest| ensures rest[i].0 != x.0 {
        assert r[0] == x && rest[i] == r[i + 1];
        assert r[0].0 != r[i + 1].0;
      }
    }
    if UniqueKeys(rest) && Lookup(rest, x.0).None? {
      forall i, j | 0 <= i < j < |r| ensures r[i].0 != r[j].0 {
        assert r[j] == rest[j - 1];
        if i > 0 {
          assert r[i] == rest[i - 1];
        } else {
          assert r[0] == x && rest[j - 1].0 != x.0;
        }
      }
    }
  }

  /** Sum of all values of a rating (`parts.values().sum()`). */
  function Total(r: Rating): nat
  {
    if r == [] then 0 else r[0].1 + Total(r[1..])
  }

  // ---------------------------------------------------------------------------
  // Parsing

  /** `parse_workflow`: "A" and "R" are the final verdicts, anything else names a workflow. */
  function ParseTarget(x: string): (t: NextWorkflow)
    ensures t == Accepted <==> x == "A"
    ensures t == Rejected <==> x == "R"
    ensures t.Workflow? ==> t.name == x
  {
    if x == "A" then Accepted else if x == "R" then Rejected else Workflow(x)
  }

  predicate IsParsedCondition(c: Condition)
  {
    c == Always || c == LessThan || c == GreaterThan
  }

  /** The text `variable op number` split at `op`. */
  function ParseComparison(text: string, op: char, cond: Condition, next: NextWorkflow): Option<Rule>
    requires op in text
  {
    var parts := Split(text, op);
    match ParseNat(Trim(parts[1]))
    case None => None
    case Some(v) => Some(Rule(Trim(parts[0]), v, cond, next))
  }

  /** One comma-separated piece of a workflow: `target` or `variable<n:target` / `variable>n:target`. */
  function ParseRule(x: string): (r: Option<Rule>)
    ensures ':' !in x ==> r == Some(Rule("", 0, Always, ParseTarget(x)))
    ensures r.Some? ==> IsParsedCondition(r.value.condition)
    ensures ':' in x && r.Some? ==> r.value.condition != Always
  {
    if ':' !in x then Some(Rule("", 0, Always, ParseTarget(x)))
    else
      var parts := Split(x, ':');
      var test := Trim(parts[0]);
      var next := ParseTarget(Trim(parts[1]));
      if '>' in test then ParseComparison(test, '>', GreaterThan, next)
      else if '<' in test then ParseComparison(test, '<', LessThan, next)
      else None
  }

  /** All pieces parse, or the whole line fails (the first `panic!` wins). */
  function ParseRules(xs: seq<string>): (r: Option<seq<Rule>>)
    ensures r.Some? ==> |r.value| == |xs|
    ensures r.Some? ==> forall i :: 0 <= i < |r.value| ==> IsParsedCondition(r.value[i].condition)
  {
    if xs == [] then Some([])
    else match ParseRule(xs[0])
      case None => None
      case Some(rule) =>
        match ParseRules(xs[1..])
        case None => None
        case Some(rest) => Some([rule] + rest)
  }

  /** The rules are the pieces parsed one by one, and they exist exactly when every piece parses. */
  lemma {:induction false} ParseRulesPieces(xs: seq<string>)
    ensures ParseRules(xs).Some? <==> forall i :: 0 <= i < |xs| ==> ParseRule(xs[i]).Some?
    ensures ParseRules(xs).Some? ==> forall i :: 0 <= i < |xs| ==> ParseRule(xs[i]) == Some(ParseRules(xs).value[i])
  {
    if xs != [] {
      ParseRulesPieces(xs[1..]);
      assert forall i :: 1 <= i < |xs| ==> xs[i] == xs[1..][i - 1];
    }
  }

  /** A workflow line `name{rule,...,rule}`. */
  function ParseWorkflowLine(line: string): (r: Option<(string, seq<Rule>)>)
    ensures r.Some? ==> forall i :: 0 <= i < |r.value.1| ==> IsParsedCondition(r.value.1[i].condition)
  {
    var parts := Split(line, '{');
    if |parts| < 2 then None
    else
      var body := Trim(parts[1]);
      if |body| == 0 || body[|body| - 1] != '}' then None
      else match ParseRules(Split(body[..|body| - 1], ','))
        case None => None
        case Some(rules) => Some((Trim(parts[0]), rules))
  }

  /** The comma-separated pieces between the braces of a rating line `{x=..,m=..}`. */
  function RatingPieces(line: string): Option<seq<string>>
  {
    var t := Trim(line);
    if |t| < 2 || t[0] != '{' || t[|t| - 1] != '}' then None
    else Some(Split(t[1..|t| - 1], ','))
  }

  /** One `variable=value` piece. */
  function ParseAssignment(piece: string): Option<(string, nat)>
  {
    var parts := Split(piece, '=');
    if |parts| < 2 then None
    else match ParseNat(Trim(parts[1]))
      case None => None
      case Some(v) => Some((Trim(parts[0]), v))
  }

  /** The rating built from its pieces, inserting them in order. */
  function RatingOf(pieces: seq<string>): Option<Rating>
  {
    if pieces == [] then Some([])
    else match RatingOf(pieces[..|pieces| - 1])
      case None => None
      case Some(r) =>
        match ParseAssignment(pieces[|pieces| - 1])
        case None => None
        case Some(a) => Some(Insert(r, a.0, a.1))
  }

  function RatingSpec(line: string): Option<Rating>
  {
    match RatingPieces(line)
    case None => None
    case Some(pieces) => RatingOf(pieces)
  }

  /** The rating line parser with the source's loop over the pieces. */
  method ParseRating(line: string) returns (r: Option<Rating>)
    ensures r == RatingSpec(line)
  {
    var pieces := RatingPieces(line);
    if pieces.None? {
      return None;
    }
    var ps := pieces.value;
    var rating: Rating := [];
    for i := 0 to |ps|
      invariant RatingOf(ps[..i]) == Some(rating)
    {
      RatingOfStep(ps, i, rating);
      var a := ParseAssignment(ps[i]);
      if a.None? {
        RatingOfFails(ps, i + 1);
        return None;
      }
      rating := Insert(rating, a.value.0, a.value.1);
    }
    assert ps[..|ps|] == ps;
    return Some(rating);
  }

  /** One more piece: its assignment is inserted, or the rating fails. */
  lemma RatingOfStep(ps: seq<string>, i: nat, rating: Rating)
    requires i < |ps| && RatingOf(ps[..i]) == Some(rating)
    ensures RatingOf(ps[..i + 1]) ==
      match ParseAssignment(ps[i])
      case None => None
      case Some(a) => Some(Insert(rating, a.0, a.1))
  {
    assert ps[..i + 1][..i] == ps[..i];
  }

  lemma {:induction false} RatingOfFails(ps: seq<string>, k: nat)
    requires k <= |ps| && RatingOf(ps[..k]) == None
    ensures RatingOf(ps) == None
    decreases |ps| - k
  {
    if k < |ps| {
      assert ps[..k + 1][..k] == ps[..k];
      RatingOfFails(ps, k + 1);
    } else {
      assert ps[..k] == ps;
    }
  }

  /** Index of the first blank line (or the number of lines). */
  function FirstBlank(lines: seq<string>): (k: nat)
    ensures k <= |lines|
    ensures k < |lines| ==> lines[k] == ""
  {
    if lines == [] || lines[0] == "" then 0 else 1 + FirstBlank(lines[1..])
  }

  /** No line before `FirstBlank` is blank. */
  lemma {:induction false} FirstBlankIsFirst(lines: seq<string>, j: nat)
    requires j < FirstBlank(lines)
    ensures lines[j] != ""
  {
    if j > 0 {
      FirstBlankIsFirst(lines[1..], j - 1);
    }
  }

  /** Every rule as the parser makes it: `Always`, `<` or `>`. */
  predicate ParsedForm(wfs: Workflows)
  {
    forall name :: name in wfs ==> forall i :: 0 <= i < |wfs[name]| ==> IsParsedCondition(wfs[name][i].condition)
  }

  /** A reader of one workflow line, and of one rating line. */
  type WorkflowParser = string -> Option<(string, seq<Rule>)>
  type RatingParser = string -> Option<Rating>

  /** The workflows of a run of workflow lines, inserted in order. */
  function WorkflowsOf(lines: seq<string>): Option<Workflows>
  {
    GatherWorkflows(ParseWorkflowLine, lines)
  }

  /** The workflows that `parse` gives for a run of lines; None once a line fails. */
  function GatherWorkflows(parse: WorkflowParser, lines: seq<string>): Option<Workflows>
  {
    if lines == [] then Some(map[])
    else AddWorkflow(parse, GatherWorkflows(parse, lines[..|lines| - 1]), lines[|lines| - 1])
  }

  function AddWorkflow(parse: WorkflowParser, acc: Option<Workflows>, line: string): Option<Workflows>
  {
    if acc.None? then None
    else match parse(line)
      case None => None
      case Some(entry) => Some(acc.value[entry.0 := entry.1])
  }

  /** Every rule of the parsed workflows carries one of the three conditions the parser makes. */
  lemma {:induction false} WorkflowsOfParsed(lines: seq<string>)
    ensures WorkflowsOf(lines).Some? ==> ParsedForm(WorkflowsOf(lines).value)
  {
    if lines != [] {
      WorkflowsOfParsed(lines[..|lines| - 1]);
      var last := ParseWorkflowLine(lines[|lines| - 1]);
    }
  }

  /** The ratings that `parse` gives for a run of rating lines, skipping blank ones; None once a line fails. */
  function GatherRatings(parse: RatingParser, lines: seq<string>): Option<seq<Rating>>
  {
    if lines == [] then Some([])
    else AddRating(parse, GatherRatings(parse, lines[..|lines| - 1]), lines[|lines| - 1])
  }

  function AddRating(parse: RatingParser, acc: Option<seq<Rating>>, line: string): Option<seq<Rating>>
  {
    if acc.None? then None
    else if line == "" then acc
    else match parse(line)
      case None => None
      case Some(r) => Some(acc.value + [r])
  }

  /**
   * Lines before the first blank line are workflows, the lines after it
   * ratings.  The two line parsers are parameters so that the facts about the
   * sections do not depend on how a single line is read.
   */
  function Sections(pw: WorkflowParser, pr: RatingParser, lines: seq<string>): Option<(Workflows, seq<Rating>)>
  {
    var k := FirstBlank(lines);
    Combine(GatherWorkflows(pw, lines[..k]), GatherRatings(pr, lines[k..]))
  }

  /** The result of `parse_lines`. */
  function ParseLinesSpec(lines: seq<string>): Option<(Workflows, seq<Rating>)>
  {
    Sections(ParseWorkflowLine, RatingSpec, lines)
  }

  lemma {:induction false} WorkflowsOfFails(pw: WorkflowParser, lines: seq<string>, i: nat, k: nat)
    requires i <= k <= |lines| && GatherWorkflows(pw, lines[..i]) == None
    ensures GatherWorkflows(pw, lines[..k]) == None
    decreases k - i
  {
    if i < k {
      assert lines[..i + 1][..i] == lines[..i];
      WorkflowsOfFails(pw, lines, i + 1, k);
    }
  }

  lemma {:induction false} RatingsOfFails(pr: RatingParser, lines: seq<string>, k: nat, i: nat)
    requires k <= i <= |lines| && GatherRatings(pr, lines[k..i]) == None
    ensures GatherRatings(pr, lines[k..]) == None
    decreases |lines| - i
  {
    if i < |lines| {
      assert lines[k..i + 1][..i - k] == lines[k..i];
      RatingsOfFails(pr, lines, k, i + 1);
    } else {
      assert lines[k..i] == lines[k..];
    }
  }

  /** A workflow line adds its workflow to those before it, or makes the parse fail. */
  lemma WorkflowsStep(pw: WorkflowParser, lines: seq<string>, i: nat, workflows: Workflows)
    requires i < |lines| && GatherWorkflows(pw, lines[..i]) == Some(workflows)
    ensures GatherWorkflows(pw, lines[..i + 1]) ==
      match pw(lines[i])
      case None => None
      case Some(entry) => Some(workflows[entry.0 := entry.1])
  {
    assert lines[..i + 1][..i] == lines[..i];
  }

  /** A blank line among the ratings changes nothing. */
  lemma RatingsSkip(pr: RatingParser, lines: seq<string>, k: nat, i: nat)
    requires k <= i < |lines| && lines[i] == ""
    ensures GatherRatings(pr, lines[k..i + 1]) == GatherRatings(pr, lines[k..i])
  {
    var s := lines[k..i + 1];
    assert s[..|s| - 1] == lines[k..i];
  }

  /** A rating line appends its rating to those before it, or makes the parse fail. */
  lemma RatingsStep(pr: RatingParser, lines: seq<string>, k: nat, i: nat, ratings: seq<Rating>)
    requires k <= i < |lines| && lines[i] != "" && GatherRatings(pr, lines[k..i]) == Some(ratings)
    ensures GatherRatings(pr, lines[k..i + 1]) ==
      match pr(lines[i])
      case None => None
      case Some(r) => Some(ratings + [r])
  {
    var s := lines[k..i + 1];
    assert s[..|s| - 1] == lines[k..i];
  }

  function Combine(w: Option<Workflows>, rs: Option<seq<Rating>>): Option<(Workflows, seq<Rating>)>
  {
    if w.None? || rs.None? then None else Some((w.value, rs.value))
  }

  /** The state of `parse_lines` after its first i lines (k is the first blank line). */
  ghost predicate ParsedUpTo(pw: WorkflowParser, pr: RatingParser, lines: seq<string>, i: nat,
                             parseRatings: bool, workflows: Workflows, ratings: seq<Rating>)
    requires i <= |lines|
  {
    var k := FirstBlank(lines);
    if !parseRatings then i <= k && GatherWorkflows(pw, lines[..i]) == Some(workflows) && ratings == []
    else k < i && GatherWorkflows(pw, lines[..k]) == Some(workflows) && GatherRatings(pr, lines[k..i]) == Some(ratings)
  }

  /** A blank line switches to (or stays in) the rating section. */
  lemma ParsedBlank(pw: WorkflowParser, pr: RatingParser, lines: seq<string>, i: nat,
                    parseRatings: bool, workflows: Workflows, ratings: seq<Rating>)
    requires i < |lines| && lines[i] == "" && ParsedUpTo(pw, pr, lines, i, parseRatings, workflows, ratings)
    ensures ParsedUpTo(pw, pr, lines, i + 1, true, workflows, ratings)
  {
    var k := FirstBlank(lines);
    if !parseRatings {
      if i < k {
        FirstBlankIsFirst(lines, i);
      }
      assert lines[k..i] == [];
    }
    RatingsSkip(pr, lines, k, i);
  }

  /** A workflow line before the blank one: its workflow is added, or the whole parse fails. */
  lemma ParsedWorkflow(pw: WorkflowParser, pr: RatingParser, lines: seq<string>, i: nat, workflows: Workflows)
    requires i < |lines| && lines[i] != "" && ParsedUpTo(pw, pr, lines, i, false, workflows, [])
    ensures pw(lines[i]).None? ==> Sections(pw, pr, lines) == None
    ensures pw(lines[i]).Some? ==>
      ParsedUpTo(pw, pr, lines, i + 1, false, workflows[pw(lines[i]).value.0 := pw(lines[i]).value.1], [])
  {
    var k := FirstBlank(lines);
    assert i < k;
    WorkflowsStep(pw, lines, i, workflows);
    if pw(lines[i]).None? {
      WorkflowsOfFails(pw, lines, i + 1, k);
    }
  }

  /** A rating line after the blank one: its rating is appended, or the whole parse fails. */
  lemma ParsedRating(pw: WorkflowParser, pr: RatingParser, lines: seq<string>, i: nat, workflows: Workflows, ratings: seq<Rating>)
    requires i < |lines| && lines[i] != "" && ParsedUpTo(pw, pr, lines, i, true, workflows, ratings)
    ensures pr(lines[i]).None? ==> Sections(pw, pr, lines) == None
    ensures pr(lines[i]).Some? ==> ParsedUpTo(pw, pr, lines, i + 1, true, workflows, ratings + [pr(lines[i]).value])
  {
    var k := FirstBlank(lines);
    RatingsStep(pr, lines, k, i, ratings);
    if pr(lines[i]).None? {
      RatingsOfFails(pr, lines, k, i + 1);
    }
  }

  /** After the last line the state is the parse. */
  lemma ParsedAll(pw: WorkflowParser, pr: RatingParser, lines: seq<string>,
                  parseRatings: bool, workflows: Workflows, ratings: seq<Rating>)
    requires ParsedUpTo(pw, pr, lines, |lines|, parseRatings, workflows, ratings)
    ensures Sections(pw, pr, lines) == Some((workflows, ratings))
  {
    var k := FirstBlank(lines);
    if !parseRatings {
      assert lines[..|lines|] == lines[..k];
      assert lines[k..] == [];
    } else {
      assert lines[k..|lines|] == lines[k..];
    }
  }

  /** The variables of `parse_lines`' loop. */
  datatype ParseState = ParseState(parseRatings: bool, workflows: Workflows, ratings: seq<Rating>)

  /** One turn of `parse_lines`' loop; None once a line panics. */
  function StepLine(pw: WorkflowParser, pr: RatingParser, st: Option<ParseState>, line: string): Option<ParseState>
  {
    if st.None? then None
    else if line == "" then Some(st.value.(parseRatings := true))
    else if !st.value.parseRatings then
      match pw(line)
      case None => None
      case Some(entry) => Some(st.value.(workflows := st.value.workflows[entry.0 := entry.1]))
    else
      match pr(line)
      case None => None
      case Some(r) => Some(st.value.(ratings := st.value.ratings + [r]))
  }

  /** The loop's state after all the given lines. */
  function RunLines(pw: WorkflowParser, pr: RatingParser, lines: seq<string>): Option<ParseState>
  {
    if lines == [] then Some(ParseState(false, map[], []))
    else StepLine(pw, pr, RunLines(pw, pr, lines[..|lines| - 1]), lines[|lines| - 1])
  }

  /** Where the loop stands after i lines, in terms of the two sections. */
  lemma {:induction false} RunLinesSections(pw: WorkflowParser, pr: RatingParser, lines: seq<string>, i: nat)
    requires i <= |lines|
    ensures RunLines(pw, pr, lines[..i]).Some? ==>
      var st := RunLines(pw, pr, lines[..i]).value;
      ParsedUpTo(pw, pr, lines, i, st.parseRatings, st.workflows, st.ratings)
    ensures RunLines(pw, pr, lines[..i]).None? ==> Sections(pw, pr, lines) == None
  {
    if i == 0 {
      assert lines[..0] == [];
    } else {
      RunLinesSections(pw, pr, lines, i - 1);
      assert lines[..i][..i - 1] == lines[..i - 1];
      var before := RunLines(pw, pr, lines[..i - 1]);
      if before.Some? {
        var st := before.value;
        if lines[i - 1] == "" {
          ParsedBlank(pw, pr, lines, i - 1, st.parseRatings, st.workflows, st.ratings);
        } else if !st.parseRatings {
          ParsedWorkflow(pw, pr, lines, i - 1, st.workflows);
        } else {
          ParsedRating(pw, pr, lines, i - 1, st.workflows, st.ratings);
        }
      }
    }
  }

  /** Running the loop over every line gives the two sections. */
  lemma RunLinesAll(pw: WorkflowParser, pr: RatingParser, lines: seq<string>)
    ensures Sections(pw, pr, lines).None? <==> RunLines(pw, pr, lines).None?
    ensures RunLines(pw, pr, lines).Some? ==>
      Sections(pw, pr, lines).value == (RunLines(pw, pr, lines).value.workflows, RunLines(pw, pr, lines).value.ratings)
  {
    RunLinesSections(pw, pr, lines, |lines|);
    assert lines[..|lines|] == lines;
    var st := RunLines(pw, pr, lines);
    if st.Some? {
      ParsedAll(pw, pr, lines, st.value.parseRatings, st.value.workflows, st.value.ratings);
    }
  }

  /** A panic stays a panic: no later line undoes it. */
  lemma {:induction false} RunLinesFails(pw: WorkflowParser, pr: RatingParser, lines: seq<string>, i: nat)
    requires i <= |lines| && RunLines(pw, pr, lines[..i]).None?
    ensures RunLines(pw, pr, lines).None?
    decreases |lines| - i
  {
    if i < |lines| {
      assert lines[..i + 1][..i] == lines[..i];
      RunLinesFails(pw, pr, lines, i + 1);
    } else {
      assert lines[..i] == lines;
    }
  }

  /** `parse_lines`: the flag `parse_ratings` switches sections at the first blank line. */
  method ParseLines(lines: seq<string>) returns (r: Option<(Workflows, seq<Rating>)>)
    ensures r == ParseLinesSpec(lines)
  {
    var workflows: Workflows := map[];
    var ratings: seq<Rating> := [];
    var parseRatings := false;
    for i := 0 to |lines|
      invariant RunLines(ParseWorkflowLine, RatingSpec, lines[..i]) == Some(ParseState(parseRatings, workflows, ratings))
    {
      assert lines[..i + 1][..i] == lines[..i];
      var line := lines[i];
      if line == "" {
        parseRatings := true;
        continue;
      }
      if !parseRatings {
        var w := ParseWorkflowLine(line);
        if w.None? {
          RunLinesFails(ParseWorkflowLine, RatingSpec, lines, i + 1);
          RunLinesAll(ParseWorkflowLine, RatingSpec, lines);
          return None;
        }
        workflows := workflows[w.value.0 := w.value.1];
      } else {
        var rating := ParseRating(line);
        if rating.None? {
          RunLinesFails(ParseWorkflowLine, RatingSpec, lines, i + 1);
          RunLinesAll(ParseWorkflowLine, RatingSpec, lines);
          return None;
        }
        ratings := ratings + [rating.value];
      }
    }
    assert lines[..|lines|] == lines;
    RunLinesAll(ParseWorkflowLine, RatingSpec, lines);
    return Some((workflows, ratings));
  }

  // Round trips: printing a well-formed rule, workflow or rating and parsing it back.

  function TargetText(t: NextWorkflow): string
  {
    match t
    case Accepted => "A"
    case Rejected => "R"
    case Workflow(name) => name
  }

  /** Names and variables: non-empty, no whitespace and none of the punctuation of the format. */
  predicate IsName(s: string)
  {
    |s| > 0 && forall i :: 0 <= i < |s| ==> !IsWhitespace(s[i]) && s[i] !in ":,{}<>="
  }

  predicate WellFormedRule(rule: Rule)
  {
    && (rule.next.Workflow? ==> IsName(rule.next.name) && rule.next.name != "A" && rule.next.name != "R")
    && match rule.condition
       case Always => rule.variable == "" && rule.value == 0
       case LessThan => IsName(rule.variable)
       case GreaterThan => IsName(rule.variable)
       case _ => false
  }

  function FormatRule(rule: Rule): string
  {
    match rule.condition
    case Always => TargetText(rule.next)
    case LessThan => rule.variable + "<" + NatToString(rule.value) + ":" + TargetText(rule.next)
    case _ => rule.variable + ">" + NatToString(rule.value) + ":" + TargetText(rule.next)
  }

  lemma TargetRoundTrip(t: NextWorkflow)
    requires t.Workflow? ==> IsName(t.name) && t.name != "A" && t.name != "R"
    ensures ParseTarget(TargetText(t)) == t
    ensures Trim(TargetText(t)) == TargetText(t)
    ensures forall i :: 0 <= i < |TargetText(t)| ==> TargetText(t)[i] !in ":,{}<>="
  {
    TrimNoop(TargetText(t));
  }

  /** A comparison `variable op digits` splits back into its variable and its number. */
  lemma ComparisonRoundTrip(v: string, op: char, n: nat, cond: Condition, next: NextWorkflow)
    requires IsName(v) && op in "<>"
    ensures op in v + [op] + NatToString(n)
    ensures ParseComparison(v + [op] + NatToString(n), op, cond, next) == Some(Rule(v, n, cond, next))
  {
    var digits := NatToString(n);
    assert op !in digits by {
      assert forall i :: 0 <= i < |digits| ==> IsDigit(digits[i]);
    }
    SplitFirst(v, op, digits);
    TrimNoop(v);
    TrimNoop(digits);
    ParseNatToString(n);
  }

  lemma NotInConcat(a: string, b: string, c: char)
    requires c !in a && c !in b
    ensures c !in a + b
  {
  }

  /** A printed rule holds none of the characters that separate rules and workflows. */
  lemma FormatRuleChars(rule: Rule)
    requires WellFormedRule(rule)
    ensures forall c :: c in ",{}" ==> c !in FormatRule(rule)
  {
    var tt := TargetText(rule.next);
    TargetRoundTrip(rule.next);
    if rule.condition != Always {
      var digits := NatToString(rule.value);
      assert forall i :: 0 <= i < |digits| ==> IsDigit(digits[i]);
      forall c | c in ",{}"
        ensures c !in FormatRule(rule)
      {
        assert c !in rule.variable;
        assert c !in digits;
        var op := if rule.condition == LessThan then "<" else ">";
        NotInConcat(rule.variable, op, c);
        NotInConcat(rule.variable + op, digits, c);
        NotInConcat(rule.variable + op + digits, ":", c);
        NotInConcat(rule.variable + op + digits + ":", tt, c);
      }
    }
  }

  lemma FormatRuleHead(rule: Rule)
    requires WellFormedRule(rule)
    ensures |FormatRule(rule)| > 0 && !IsWhitespace(FormatRule(rule)[0])
  {
  }

  /** Printing a well-formed rule and parsing it back gives the rule. */
  lemma RuleRoundTrip(rule: Rule)
    requires WellFormedRule(rule)
    ensures ParseRule(FormatRule(rule)) == Some(rule)
  {
    TargetRoundTrip(rule.next);
    if rule.condition != Always {
      ComparisonRuleRoundTrip(rule);
    }
  }

  /** How `ParseRule` reads a test and a target joined by ':'. */
  lemma ParseRuleOfParts(test: string, tt: string)
    requires ':' !in test && ':' !in tt && Trim(test) == test && Trim(tt) == tt
    ensures ParseRule(test + [':'] + tt) ==
      if '>' in test then ParseComparison(test, '>', GreaterThan, ParseTarget(tt))
      else if '<' in test then ParseComparison(test, '<', LessThan, ParseTarget(tt))
      else None
  {
    var x := test + [':'] + tt;
    assert x[|test|] == ':';
    SplitFirst(test, ':', tt);
    assert Split(x, ':') == [test, tt];
  }

  /** The characters of `variable op digits`. */
  lemma TestText(v: string, op: char, n: nat)
    requires IsName(v) && op in "<>"
    ensures var test := v + [op] + NatToString(n);
      ':' !in test && Trim(test) == test && (op == '<' ==> '>' !in test) && op in test
  {
    var digits := NatToString(n);
    var test := v + [op] + digits;
    assert forall i :: 0 <= i < |digits| ==> IsDigit(digits[i]);
    NotInConcat(v, [op], ':');
    NotInConcat(v + [op], digits, ':');
    if op == '<' {
      NotInConcat(v, [op], '>');
      NotInConcat(v + [op], digits, '>');
    }
    TrimNoop(test);
  }

  lemma ComparisonRuleRoundTrip(rule: Rule)
    requires WellFormedRule(rule) && rule.condition != Always
    ensures ParseRule(FormatRule(rule)) == Some(rule)
  {
    TargetRoundTrip(rule.next);
    var tt := TargetText(rule.next);
    var op := if rule.condition == LessThan then '<' else '>';
    var test := rule.variable + [op] + NatToString(rule.value);
    TestText(rule.variable, op, rule.value);
    assert FormatRule(rule) == test + [':'] + tt;
    assert ':' !in tt;
    ParseRuleOfParts(test, tt);
    ComparisonRoundTrip(rule.variable, op, rule.value, rule.condition, rule.next);
  }

  function FormatRules(rules: seq<Rule>): (r: seq<string>)
    ensures |r| == |rules| && forall i :: 0 <= i < |rules| ==> r[i] == FormatRule(rules[i])
  {
    if rules == [] then [] else [FormatRule(rules[0])] + FormatRules(rules[1..])
  }

  function FormatWorkflowLine(name: string, rules: seq<Rule>): string
  {
    name + "{" + Join(FormatRules(rules), ',') + "}"
  }

  lemma {:induction false} ParseFormattedRules(rules: seq<Rule>)
    requires forall i :: 0 <= i < |rules| ==> WellFormedRule(rules[i])
    ensures ParseRules(FormatRules(rules)) == Some(rules)
  {
    if rules != [] {
      RuleRoundTrip(rules[0]);
      ParseFormattedRules(rules[1..]);
      assert FormatRules(rules)[1..] == FormatRules(rules[1..]);
      assert [rules[0]] + rules[1..] == rules;
    }
  }

  lemma {:induction false} JoinAvoids(parts: seq<string>, sep: char, c: char)
    requires c != sep && forall i :: 0 <= i < |parts| ==> c !in parts[i]
    ensures c !in Join(parts, sep)
  {
    if |parts| > 1 {
      JoinAvoids(parts[1..], sep, c);
    }
  }

  lemma {:induction false} JoinHead(parts: seq<string>, sep: char)
    requires |parts| >= 1 && |parts[0]| > 0
    ensures |Join(parts, sep)| > 0 && Join(parts, sep)[0] == parts[0][0]
  {
  }

  /** The text between the braces of a printed workflow. */
  lemma WorkflowBody(rules: seq<Rule>)
    requires |rules| >= 1
    requires forall i :: 0 <= i < |rules| ==> WellFormedRule(rules[i])
    ensures var joined := Join(FormatRules(rules), ',');
      '{' !in joined && |joined| > 0 && !IsWhitespace(joined[0]) && Split(joined, ',') == FormatRules(rules)
  {
    var texts := FormatRules(rules);
    forall i | 0 <= i < |texts|
      ensures ',' !in texts[i] && '{' !in texts[i]
    {
      FormatRuleChars(rules[i]);
    }
    JoinAvoids(texts, ',', '{');
    FormatRuleHead(rules[0]);
    JoinHead(texts, ',');
    SplitJoin(texts, ',');
  }

  /** Printing a workflow with at least one well-formed rule and parsing it back gives it. */
  lemma WorkflowRoundTrip(name: string, rules: seq<Rule>)
    requires IsName(name) && |rules| >= 1
    requires forall i :: 0 <= i < |rules| ==> WellFormedRule(rules[i])
    ensures ParseWorkflowLine(FormatWorkflowLine(name, rules)) == Some((name, rules))
  {
    var joined := Join(FormatRules(rules), ',');
    WorkflowBody(rules);
    var body := joined + "}";
    assert FormatWorkflowLine(name, rules) == name + ['{'] + body;
    SplitFirst(name, '{', body);
    assert '{' !in body;
    TrimNoop(name);
    TrimNoop(body);
    assert body[..|body| - 1] == joined;
    ParseFormattedRules(rules);
  }

  // ---------------------------------------------------------------------------
  // Part one: evaluating a rating

  /**
   * Whether a rule fires for a rating: `Always` fires; a comparison on a
   * variable the rating lacks does not; a `<=`/`>=` rule on a present variable
   * is the source's `panic!` (None).
   */
  function Fires(rule: Rule, rating: Rating): Option<bool>
  {
    if rule.condition == Always then Some(true)
    else match Lookup(rating, rule.variable)
      case None => Some(false)
      case Some(n) =>
        if rule.condition == LessThan then Some(n < rule.value)
        else if rule.condition == GreaterThan then Some(n > rule.value)
        else None
  }

  /** Result of running one workflow's rules on a rating. */
  datatype Verdict =
    | Goes(next: NextWorkflow)   // the first rule that fires sends the part on
    | NoRule                     // no rule fires: the source loops forever on this workflow
    | Invalid                    // a rule panics first

  /** Rule `i` fires and no earlier rule does. */
  predicate FirstFiring(rules: seq<Rule>, rating: Rating, i: int)
  {
    0 <= i < |rules| && Fires(rules[i], rating) == Some(true) &&
    forall j :: 0 <= j < i ==> Fires(rules[j], rating) == Some(false)
  }

  function FirstMatch(rules: seq<Rule>, rating: Rating): (v: Verdict)
    ensures v.Goes? ==> exists i :: FirstFiring(rules, rating, i) && rules[i].next == v.next
    ensures v == NoRule <==> forall i :: 0 <= i < |rules| ==> Fires(rules[i], rating) == Some(false)
  {
    if rules == [] then NoRule
    else
      var rest := FirstMatch(rules[1..], rating);
      assert forall i :: 1 <= i < |rules| ==> rules[i] == rules[1..][i - 1];
      match Fires(rules[0], rating)
      case None => Invalid
      case Some(b) => if b then Goes(rules[0].next) else rest
  }

  /** Parsed workflows never panic, and a final `Always` rule means some rule fires. */
  lemma {:induction false} FirstMatchParsed(rules: seq<Rule>, rating: Rating)
    requires forall i :: 0 <= i < |rules| ==> IsParsedCondition(rules[i].condition)
    ensures FirstMatch(rules, rating) != Invalid
    ensures |rules| > 0 && rules[|rules| - 1].condition == Always ==> FirstMatch(rules, rating).Goes?
  {
    if rules != [] {
      FirstMatchParsed(rules[1..], rating);
      if rules[|rules| - 1].condition == Always {
        assert Fires(rules[|rules| - 1], rating) == Some(true);
      }
    }
  }

  /** The inner `for rule in rules` loop with its early `break`. */
  method ApplyRules(rules: seq<Rule>, rating: Rating) returns (v: Verdict)
    ensures v == FirstMatch(rules, rating)
  {
    for i := 0 to |rules|
      invariant FirstMatch(rules[i..], rating) == FirstMatch(rules, rating)
    {
      assert rules[i..][1..] == rules[i + 1..];
      var f := Fires(rules[i], rating);
      if f.None? {
        return Invalid;
      }
      if f.value {
        return Goes(rules[i].next);
      }
    }
    return NoRule;
  }

  /**
   * The verdict for a rating starting at `cur`, visiting at most `fuel`
   * workflows.  None: a missing workflow (`unwrap` panic), a panicking rule, a
   * workflow where no rule fires (the source never leaves it) or fuel exhausted.
   */
  function Evaluate(wfs: Workflows, rating: Rating, cur: NextWorkflow, fuel: nat): Option<bool>
    decreases fuel
  {
    match cur
    case Accepted => Some(true)
    case Rejected => Some(false)
    case Workflow(name) =>
      if fuel == 0 || name !in wfs then None
      else match FirstMatch(wfs[name], rating)
        case Goes(next) => Evaluate(wfs, rating, next, fuel - 1)
        case _ => None
  }

  /** More fuel never changes a verdict that was reached. */
  lemma {:induction false} EvaluateFuel(wfs: Workflows, rating: Rating, cur: NextWorkflow, fuel: nat, more: nat)
    requires fuel <= more && Evaluate(wfs, rating, cur, fuel).Some?
    ensures Evaluate(wfs, rating, cur, more) == Evaluate(wfs, rating, cur, fuel)
    decreases fuel
  {
    if cur.Workflow? {
      var next := FirstMatch(wfs[cur.name], rating).next;
      EvaluateFuel(wfs, rating, next, fuel - 1, more - 1);
    }
  }

  const Start: NextWorkflow := Workflow("in")

  predicate Accepts(wfs: Workflows, rating: Rating, fuel: nat)
  {
    Evaluate(wfs, rating, Start, fuel) == Some(true)
  }

  /** Indices of the ratings that evaluation from "in" accepts. */
  function AcceptedSet(wfs: Workflows, ratings: seq<Rating>, fuel: nat): set<nat>
  {
    set i: nat | i < |ratings| && Accepts(wfs, ratings[i], fuel)
  }

  predicate Decided(wfs: Workflows, rating: Rating, fuel: nat)
  {
    Evaluate(wfs, rating, Start, fuel).Some?
  }

  predicate AllDecided(wfs: Workflows, ratings: seq<Rating>, fuel: nat)
  {
    forall i :: 0 <= i < |ratings| ==> Decided(wfs, ratings[i], fuel)
  }

  /** The source's inner `loop`: follows one rating from "in" until `A` or `R`. */
  method Walk(wfs: Workflows, rating: Rating, fuel: nat) returns (v: Option<bool>)
    ensures v == Evaluate(wfs, rating, Start, fuel)
  {
    var cur := Start;
    var steps := 0;
    while true
      invariant steps <= fuel
      invariant Evaluate(wfs, rating, cur, fuel - steps) == Evaluate(wfs, rating, Start, fuel)
      decreases fuel - steps
    {
      if cur == Accepted {
        return Some(true);
      } else if cur == Rejected {
        return Some(false);
      }
      if steps == fuel || cur.name !in wfs {
        return None;
      }
      var verdict := ApplyRules(wfs[cur.name], rating);
      if !verdict.Goes? {
        return None;
      }
      cur := verdict.next;
      steps := steps + 1;
    }
  }

  /** The indices below n that `keep` selects. */
  function IndicesBelow(keep: nat -> bool, n: nat): set<nat>
  {
    set i: nat | i < n && keep(i)
  }

  /** One more index: it joins exactly when it is selected. */
  lemma IndicesBelowStep(keep: nat -> bool, n: nat)
    ensures IndicesBelow(keep, n + 1) == IndicesBelow(keep, n) + (if keep(n) then {n} else {})
  {
    var a, b := IndicesBelow(keep, n + 1), IndicesBelow(keep, n);
    forall i: nat ensures i in a <==> i in b || (keep(n) && i == n) {
    }
  }

  /** The accepted indices among the first n ratings. */
  function AcceptedBelow(wfs: Workflows, ratings: seq<Rating>, fuel: nat, n: nat): set<nat>
  {
    IndicesBelow((i: nat) => i < |ratings| && Accepts(wfs, ratings[i], fuel), n)
  }

  /** The first n ratings all reach a verdict. */
  predicate DecidedBelow(wfs: Workflows, ratings: seq<Rating>, fuel: nat, n: nat)
  {
    forall j :: 0 <= j < n && j < |ratings| ==> Decided(wfs, ratings[j], fuel)
  }

  /** `find_accepted_wflows`: the indices of the ratings that reach `A`. */
  method FindAcceptedWflows(wfs: Workflows, ratings: seq<Rating>, fuel: nat) returns (r: Option<set<nat>>)
    ensures r.Some? <==> AllDecided(wfs, ratings, fuel)
    ensures r.Some? ==> r.value == AcceptedSet(wfs, ratings, fuel)
  {
    var accepted: set<nat> := {};
    for idx := 0 to |ratings|
      invariant DecidedBelow(wfs, ratings, fuel, idx)
      invariant accepted == AcceptedBelow(wfs, ratings, fuel, idx)
    {
      var verdict := Walk(wfs, ratings[idx], fuel);
      IndicesBelowStep((i: nat) => i < |ratings| && Accepts(wfs, ratings[i], fuel), idx);
      if verdict.None? {
        assert !Decided(wfs, ratings[idx], fuel);
        return None;
      }
      if verdict.value {
        accepted := accepted + {idx};
      }
    }
    assert AcceptedBelow(wfs, ratings, fuel, |ratings|) == AcceptedSet(wfs, ratings, fuel);
    return Some(accepted);
  }

  /** `aggregate_accepted_ratings`: the rating totals of the accepted indices. */
  function Aggregate(ratings: seq<Rating>, accepted: set<nat>): (total: nat)
    ensures total <= AllTotals(ratings)
    ensures (forall i :: 0 <= i < |ratings| ==> i in accepted) ==> total == AllTotals(ratings)
    ensures (forall i :: 0 <= i < |ratings| ==> i !in accepted) ==> total == 0
  {
    if ratings == [] then 0
    else
      var n := |ratings| - 1;
      Aggregate(ratings[..n], accepted) + (if n in accepted then Total(ratings[n]) else 0)
  }

  function AllTotals(ratings: seq<Rating>): nat
  {
    if ratings == [] then 0 else AllTotals(ratings[..|ratings| - 1]) + Total(ratings[|ratings| - 1])
  }

  /** Adding accepted indices never lowers the total. */
  lemma {:induction false} AggregateMonotone(ratings: seq<Rating>, a: set<nat>, b: set<nat>)
    requires a <= b
    ensures Aggregate(ratings, a) <= Aggregate(ratings, b)
  {
    if ratings != [] {
      AggregateMonotone(ratings[..|ratings| - 1], a, b);
    }
  }

  /** `p1` with a bound of `fuel` workflow visits per rating. */
  method P1(lines: seq<string>, fuel: nat) returns (r: Option<nat>)
    ensures r.Some? <==>
      ParseLinesSpec(lines).Some? && AllDecided(ParseLinesSpec(lines).value.0, ParseLinesSpec(lines).value.1, fuel)
    ensures r.Some? ==> r.value == Aggregate(ParseLinesSpec(lines).value.1,
      AcceptedSet(ParseLinesSpec(lines).value.0, ParseLinesSpec(lines).value.1, fuel))
  {
    var parsed := ParseLines(lines);
    if parsed.None? {
      return None;
    }
    var accepted := FindAcceptedWflows(parsed.value.0, parsed.value.1, fuel);
    if accepted.None? {
      return None;
    }
    return Some(Aggregate(parsed.value.1, accepted.value));
  }

  // ---------------------------------------------------------------------------
  // Part two: splitting boxes of ratings

  datatype Interval = Interval(low: int, high: int)
  datatype Box = Box(x: Interval, m: Interval, a: Interval, s: Interval)
  datatype Part = Part(x: int, m: int, a: int, s: int)

  const StartBox := Box(Interval(1, 4000), Interval(1, 4000), Interval(1, 4000), Interval(1, 4000))

  predicate InInterval(v: int, iv: Interval) { iv.low <= v <= iv.high }

  predicate InBox(p: Part, b: Box)
  {
    InInterval(p.x, b.x) && InInterval(p.m, b.m) && InInterval(p.a, b.a) && InInterval(p.s, b.s)
  }

  /** What a condition demands of a variable's value `v` against the rule's number `n`. */
  predicate Holds(cond: Condition, v: int, n: int)
  {
    match cond
    case LessThan => v < n
    case GreaterThan => v > n
    case LessThanEqual => v <= n
    case GreaterThanEqual => v >= n
    case Always => true
  }

  /**
   * `update_range`: narrows the interval to the values meeting the condition.
   * `Always` panics, and so does `LessThan 0`, whose `value - 1` underflows `usize`.
   */
  function UpdateRange(value: nat, cond: Condition, iv: Interval): (r: Option<Interval>)
    ensures r.Some? <==> cond != Always && !(cond == LessThan && value == 0)
    ensures r.Some? ==> iv.low <= r.value.low && r.value.high <= iv.high
    ensures r.Some? ==> forall v :: InInterval(v, r.value) <==> InInterval(v, iv) && Holds(cond, v, value)
  {
    match cond
    case LessThan => if value == 0 then None else Some(Interval(iv.low, Min(value - 1, iv.high)))
    case GreaterThan => Some(Interval(Max(value + 1, iv.low), iv.high))
    case LessThanEqual => Some(Interval(iv.low, Min(value, iv.high)))
    case GreaterThanEqual => Some(Interval(Max(value, iv.low), iv.high))
    case Always => None
  }

  function Min(a: int, b: int): int { if a < b then a else b }
  function Max(a: int, b: int): int { if a < b then b else a }

  function Coord(p: Part, variable: string): int
    requires variable in ["x", "m", "a", "s"]
  {
    if variable == "x" then p.x else if variable == "m" then p.m else if variable == "a" then p.a else p.s
  }

  /** `update_ranges`: applies `update_range` to the named coordinate; other names panic. */
  function UpdateRanges(variable: string, value: nat, cond: Condition, b: Box): (r: Option<Box>)
    ensures r.Some? <==> variable in ["x", "m", "a", "s"] && UpdateRange(value, cond, b.x).Some?
    ensures r.Some? ==> forall p :: InBox(p, r.value) <==> InBox(p, b) && Holds(cond, Coord(p, variable), value)
  {
    match UpdateRange(value, cond, b.x)
    case None => None
    case Some(_) =>
      if variable == "x" then Some(b.(x := UpdateRange(value, cond, b.x).value))
      else if variable == "m" then Some(b.(m := UpdateRange(value, cond, b.m).value))
      else if variable == "a" then Some(b.(a := UpdateRange(value, cond, b.a).value))
      else if variable == "s" then Some(b.(s := UpdateRange(value, cond, b.s).value))
      else None
  }

  /** The condition of the box carried on to the next rule. */
  function Complement(cond: Condition): Condition
  {
    if cond == GreaterThan then LessThanEqual else GreaterThanEqual
  }

  predicate IsComparison(c: Condition) { c == LessThan || c == GreaterThan }

  /** A comparison and its complement split every value exactly once. */
  lemma ComplementPartition(cond: Condition, v: int, n: int)
    requires IsComparison(cond)
    ensures Holds(Complement(cond), v, n) <==> !Holds(cond, v, n)
  {
  }

  /**
   * The boxes of a conditional rule: the one pushed to its target and the one
   * carried to the next rule partition the current box.
   */
  lemma SplitPartitions(rule: Rule, b: Box, pushed: Box, carried: Box, p: Part)
    requires IsComparison(rule.condition)
    requires UpdateRanges(rule.variable, rule.value, rule.condition, b) == Some(pushed)
    requires UpdateRanges(rule.variable, rule.value, Complement(rule.condition), b) == Some(carried)
    ensures InBox(p, b) <==> InBox(p, pushed) || InBox(p, carried)
    ensures !(InBox(p, pushed) && InBox(p, carried))
  {
    assert InBox(p, pushed) <==> InBox(p, b) && Holds(rule.condition, Coord(p, rule.variable), rule.value);
    assert InBox(p, carried) <==> InBox(p, b) && Holds(Complement(rule.condition), Coord(p, rule.variable), rule.value);
  }

  function Width(iv: Interval): nat
  {
    if iv.high < iv.low then 0 else iv.high - iv.low + 1
  }

  function Volume(b: Box): nat
  {
    Width(b.x) * Width(b.m) * Width(b.a) * Width(b.s)
  }

  predicate IsEmptyBox(b: Box)
  {
    b.x.low > b.x.high || b.m.low > b.m.high || b.a.low > b.a.high || b.s.low > b.s.high
  }

  lemma StartVolume()
    ensures Volume(StartBox) == 256_000_000_000_000
  {
  }

  lemma WidthSplit(value: nat, cond: Condition, iv: Interval)
    requires IsComparison(cond) && UpdateRange(value, cond, iv).Some?
    ensures Width(UpdateRange(value, cond, iv).value) + Width(UpdateRange(value, Complement(cond), iv).value) == Width(iv)
  {
  }

  /** The two boxes of a conditional rule together have the volume of the box they split. */
  lemma VolumeSplit(rule: Rule, b: Box, pushed: Box, carried: Box)
    requires IsComparison(rule.condition)
    requires UpdateRanges(rule.variable, rule.value, rule.condition, b) == Some(pushed)
    requires UpdateRanges(rule.variable, rule.value, Complement(rule.condition), b) == Some(carried)
    ensures Volume(pushed) + Volume(carried) == Volume(b)
  {
    var (v, c, cc) := (rule.value, rule.condition, Complement(rule.condition));
    if rule.variable == "x" {
      WidthSplit(v, c, b.x);
      VolumeSplitX(b, UpdateRange(v, c, b.x).value, UpdateRange(v, cc, b.x).value);
    } else if rule.variable == "m" {
      WidthSplit(v, c, b.m);
      VolumeSplitM(b, UpdateRange(v, c, b.m).value, UpdateRange(v, cc, b.m).value);
    } else if rule.variable == "a" {
      WidthSplit(v, c, b.a);
      VolumeSplitA(b, UpdateRange(v, c, b.a).value, UpdateRange(v, cc, b.a).value);
    } else {
      WidthSplit(v, c, b.s);
      VolumeSplitS(b, UpdateRange(v, c, b.s).value, UpdateRange(v, cc, b.s).value);
    }
  }

  lemma VolumeSplitX(b: Box, p: Interval, q: Interval)
    requires Width(p) + Width(q) == Width(b.x)
    ensures Volume(b.(x := p)) + Volume(b.(x := q)) == Volume(b)
  {
    var (m, a, s) := (Width(b.m), Width(b.a), Width(b.s));
    Distribute(Width(p), Width(q), m);
    Distribute(Width(p) * m, Width(q) * m, a);
    Distribute(Width(p) * m * a, Width(q) * m * a, s);
  }

  lemma VolumeSplitM(b: Box, p: Interval, q: Interval)
    requires Width(p) + Width(q) == Width(b.m)
    ensures Volume(b.(m := p)) + Volume(b.(m := q)) == Volume(b)
  {
    var (x, a, s) := (Width(b.x), Width(b.a), Width(b.s));
    DistributeLeft(x, Width(p), Width(q));
    Distribute(x * Width(p), x * Width(q), a);
    Distribute(x * Width(p) * a, x * Width(q) * a, s);
  }

  lemma VolumeSplitA(b: Box, p: Interval, q: Interval)
    requires Width(p) + Width(q) == Width(b.a)
    ensures Volume(b.(a := p)) + Volume(b.(a := q)) == Volume(b)
  {
    var (x, m, s) := (Width(b.x), Width(b.m), Width(b.s));
    DistributeLeft(x * m, Width(p), Width(q));
    Distribute(x * m * Width(p), x * m * Width(q), s);
  }

  lemma VolumeSplitS(b: Box, p: Interval, q: Interval)
    requires Width(p) + Width(q) == Width(b.s)
    ensures Volume(b.(s := p)) + Volume(b.(s := q)) == Volume(b)
  {
    DistributeLeft(Width(b.x) * Width(b.m) * Width(b.a), Width(p), Width(q));
  }

  lemma Distribute(p: int, q: int, r: int)
    ensures p * r + q * r == (p + q) * r
  {
  }

  lemma DistributeLeft(r: int, p: int, q: int)
    ensures r * p + r * q == r * (p + q)
  {
  }

  type Entry = (NextWorkflow, Box)

  /** The entries one workflow pushes for a box, in push order; None when a rule panics. */
  function Pushes(rules: seq<Rule>, b: Box): Option<seq<Entry>>
  {
    if rules == [] then Some([])
    else
      var rule := rules[0];
      if rule.condition == Always then Prepend([(rule.next, b)], Pushes(rules[1..], b))
      else match UpdateRanges(rule.variable, rule.value, rule.condition, b)
        case None => None
        case Some(pushed) =>
          match UpdateRanges(rule.variable, rule.value, Complement(rule.condition), b)
          case None => None
          case Some(carried) => Prepend([(rule.next, pushed)], Pushes(rules[1..], carried))
  }

  function Prepend(d: seq<Entry>, o: Option<seq<Entry>>): Option<seq<Entry>>
  {
    match o
    case None => None
    case Some(ps) => Some(d + ps)
  }

  lemma PrependTwice(d: seq<Entry>, e: seq<Entry>, o: Option<seq<Entry>>)
    ensures Prepend(d, Prepend(e, o)) == Prepend(d + e, o)
  {
    if o.Some? {
      assert d + (e + o.value) == d + e + o.value;
    }
  }

  /** The inner `for rule in wflow.rules` loop, pushing onto the stack as it goes. */
  method PushRules(rules: seq<Rule>, b: Box, stack: seq<Entry>) returns (r: Option<seq<Entry>>)
    ensures r == Prepend(stack, Pushes(rules, b))
  {
    var cur := b;
    var st := stack;
    ghost var done: seq<Entry> := [];
    assert rules[0..] == rules;
    if Pushes(rules, b).Some? {
      assert [] + Pushes(rules, b).value == Pushes(rules, b).value;
    }
    for i := 0 to |rules|
      invariant st == stack + done
      invariant Pushes(rules, b) == Prepend(done, Pushes(rules[i..], cur))
    {
      assert rules[i..][1..] == rules[i + 1..];
      var rule := rules[i];
      if rule.condition == Always {
        PrependTwice(done, [(rule.next, cur)], Pushes(rules[i + 1..], cur));
        st := st + [(rule.next, cur)];
        done := done + [(rule.next, cur)];
      } else {
        var pushed := UpdateRanges(rule.variable, rule.value, rule.condition, cur);
        if pushed.None? {
          return None;
        }
        var carried := UpdateRanges(rule.variable, rule.value, Complement(rule.condition), cur);
        if carried.None? {
          return None;
        }
        PrependTwice(done, [(rule.next, pushed.value)], Pushes(rules[i + 1..], carried.value));
        st := st + [(rule.next, pushed.value)];
        done := done + [(rule.next, pushed.value)];
        cur := carried.value;
      }
    }
    assert rules[|rules|..] == [];
    assert done + [] == done;
    return Some(st);
  }

  /** Conditions as the parser makes them, with `Always` at most as the last rule. */
  predicate AlwaysLast(rules: seq<Rule>)
  {
    forall i :: 0 <= i < |rules| ==> IsComparison(rules[i].condition) || (rules[i].condition == Always && i == |rules| - 1)
  }

  predicate AllAlwaysLast(wfs: Workflows)
  {
    forall name :: name in wfs ==> AlwaysLast(wfs[name])
  }

  function Plus(a: Option<nat>, b: Option<nat>): Option<nat>
  {
    if a.Some? && b.Some? then Some(a.value + b.value) else None
  }

  /**
   * The combinations of box b that the source counts starting at `cur`, with
   * `fuel` workflow visits along each path; None where the source panics or
   * a path runs out of visits. An empty box counts nothing (the source skips
   * it when popped), a box reaching `A` counts its volume, one reaching `R`
   * nothing, and a workflow counts what each of its rules sends on. After an
   * unconditional rule the later rules still see the same box, as in the
   * source's rule loop, which does not stop there.
   */
  function Combos(wfs: Workflows, cur: NextWorkflow, b: Box, fuel: nat): Option<nat>
    decreases fuel, if cur.Workflow? && cur.name in wfs then |wfs[cur.name]| + 1 else 0
  {
    if IsEmptyBox(b) then Some(0)
    else match cur
      case Accepted => Some(Volume(b))
      case Rejected => Some(0)
      case Workflow(name) =>
        if fuel == 0 || name !in wfs then None else RuleCombos(wfs, wfs[name], b, fuel - 1)
  }

  /** What the rules of one workflow send on from box b, each target with `fuel` visits left. */
  function RuleCombos(wfs: Workflows, rules: seq<Rule>, b: Box, fuel: nat): Option<nat>
    decreases fuel + 1, |rules|
  {
    if rules == [] then Some(0)
    else
      var rule := rules[0];
      if rule.condition == Always then Plus(Combos(wfs, rule.next, b, fuel), RuleCombos(wfs, rules[1..], b, fuel))
      else match UpdateRanges(rule.variable, rule.value, rule.condition, b)
        case None => None
        case Some(pushed) =>
          match UpdateRanges(rule.variable, rule.value, Complement(rule.condition), b)
          case None => None
          case Some(carried) => Plus(Combos(wfs, rule.next, pushed, fuel), RuleCombos(wfs, rules[1..], carried, fuel))
  }

  // Part two's meaning, point by point.

  /** The parts (combinations of ratings) of a box. */
  function PointsIn(b: Box): set<Part>
  {
    set x: int, m: int, a: int, s: int |
      b.x.low <= x <= b.x.high && b.m.low <= m <= b.m.high && b.a.low <= a <= b.a.high && b.s.low <= s <= b.s.high
      :: Part(x, m, a, s)
  }

  lemma PointsInMember(b: Box)
    ensures forall p :: p in PointsIn(b) <==> InBox(p, b)
  {
    forall p | InBox(p, b)
      ensures p in PointsIn(b)
    {
      assert p == Part(p.x, p.m, p.a, p.s);
    }
  }

  lemma EmptyWidth(b: Box)
    requires IsEmptyBox(b)
    ensures Volume(b) == 0
  {
    if b.x.low > b.x.high {
      assert Width(b.x) == 0;
    } else if b.m.low > b.m.high {
      assert Width(b.m) == 0;
    } else if b.a.low > b.a.high {
      assert Width(b.a) == 0;
    } else {
      assert Width(b.s) == 0;
    }
  }

  /** Two boxes splitting a third hold its parts between them. */
  lemma PointsSplit(b: Box, b1: Box, b2: Box)
    requires forall p :: InBox(p, b) <==> InBox(p, b1) || InBox(p, b2)
    requires forall p :: !(InBox(p, b1) && InBox(p, b2))
    ensures |PointsIn(b)| == |PointsIn(b1)| + |PointsIn(b2)|
  {
    PointsInMember(b);
    PointsInMember(b1);
    PointsInMember(b2);
    assert PointsIn(b) == PointsIn(b1) + PointsIn(b2);
    assert PointsIn(b1) * PointsIn(b2) == {};
  }

  /** A box holds exactly its volume of parts. */
  lemma {:induction false} BoxCard(b: Box)
    ensures |PointsIn(b)| == Volume(b)
    decreases Width(b.x) + Width(b.m) + Width(b.a) + Width(b.s)
  {
    PointsInMember(b);
    if IsEmptyBox(b) {
      EmptyWidth(b);
      assert PointsIn(b) == {};
    } else if Width(b.x) > 1 {
      var (lo, hi) := (b.x.(high := b.x.high - 1), Interval(b.x.high, b.x.high));
      PointsSplit(b, b.(x := lo), b.(x := hi));
      VolumeSplitX(b, lo, hi);
      BoxCard(b.(x := lo));
      BoxCard(b.(x := hi));
    } else if Width(b.m) > 1 {
      var (lo, hi) := (b.m.(high := b.m.high - 1), Interval(b.m.high, b.m.high));
      PointsSplit(b, b.(m := lo), b.(m := hi));
      VolumeSplitM(b, lo, hi);
      BoxCard(b.(m := lo));
      BoxCard(b.(m := hi));
    } else if Width(b.a) > 1 {
      var (lo, hi) := (b.a.(high := b.a.high - 1), Interval(b.a.high, b.a.high));
      PointsSplit(b, b.(a := lo), b.(a := hi));
      VolumeSplitA(b, lo, hi);
      BoxCard(b.(a := lo));
      BoxCard(b.(a := hi));
    } else if Width(b.s) > 1 {
      var (lo, hi) := (b.s.(high := b.s.high - 1), Interval(b.s.high, b.s.high));
      PointsSplit(b, b.(s := lo), b.(s := hi));
      VolumeSplitS(b, lo, hi);
      BoxCard(b.(s := lo));
      BoxCard(b.(s := hi));
    } else {
      assert PointsIn(b) == {Part(b.x.low, b.m.low, b.a.low, b.s.low)};
    }
  }

  /**
   * Where a workflow's rules send a part: the first rule that is
   * unconditional or whose comparison holds for the part (None: no rule does).
   */
  function Sends(rules: seq<Rule>, p: Part): Option<NextWorkflow>
  {
    if rules == [] then None
    else
      var rule := rules[0];
      if rule.condition == Always
        || (rule.variable in ["x", "m", "a", "s"] && Holds(rule.condition, Coord(p, rule.variable), rule.value))
      then Some(rule.next)
      else Sends(rules[1..], p)
  }

  /** The part, starting at `cur`, reaches `A` within `fuel` workflow visits. */
  predicate Reaches(wfs: Workflows, p: Part, cur: NextWorkflow, fuel: nat)
    decreases fuel
  {
    match cur
    case Accepted => true
    case Rejected => false
    case Workflow(name) =>
      fuel > 0 && name in wfs && Sends(wfs[name], p).Some? && Reaches(wfs, p, Sends(wfs[name], p).value, fuel - 1)
  }

  /** The parts of box b accepted from `cur`. */
  function AcceptedIn(wfs: Workflows, cur: NextWorkflow, b: Box, fuel: nat): set<Part>
  {
    set p | p in PointsIn(b) && Reaches(wfs, p, cur, fuel)
  }

  /** The parts of box b that a workflow's rules send on to be accepted. */
  function SentAccepted(wfs: Workflows, rules: seq<Rule>, b: Box, fuel: nat): set<Part>
  {
    set p | p in PointsIn(b) && Sends(rules, p).Some? && Reaches(wfs, p, Sends(rules, p).value, fuel)
  }

  /**
   * What the source counts is the number of parts the workflows accept,
   * provided each workflow has its unconditional rule only last (so no box
   * is counted twice) and the count does not panic.
   */
  lemma {:induction false} CombosMeaning(wfs: Workflows, cur: NextWorkflow, b: Box, fuel: nat)
    requires AllAlwaysLast(wfs) && Combos(wfs, cur, b, fuel).Some?
    ensures Combos(wfs, cur, b, fuel).value == |AcceptedIn(wfs, cur, b, fuel)|
    decreases fuel, if cur.Workflow? && cur.name in wfs then |wfs[cur.name]| + 1 else 0
  {
    PointsInMember(b);
    if IsEmptyBox(b) {
      assert AcceptedIn(wfs, cur, b, fuel) == {};
    } else {
      match cur
      case Accepted =>
        BoxCard(b);
        assert AcceptedIn(wfs, cur, b, fuel) == PointsIn(b);
      case Rejected =>
        assert AcceptedIn(wfs, cur, b, fuel) == {};
      case Workflow(name) =>
        RuleCombosMeaning(wfs, wfs[name], b, fuel - 1);
        assert AcceptedIn(wfs, cur, b, fuel) == SentAccepted(wfs, wfs[name], b, fuel - 1);
    }
  }

  lemma {:induction false} RuleCombosMeaning(wfs: Workflows, rules: seq<Rule>, b: Box, fuel: nat)
    requires AllAlwaysLast(wfs) && AlwaysLast(rules) && RuleCombos(wfs, rules, b, fuel).Some?
    ensures RuleCombos(wfs, rules, b, fuel).value == |SentAccepted(wfs, rules, b, fuel)|
    decreases fuel + 1, |rules|
  {
    if rules == [] {
      assert SentAccepted(wfs, rules, b, fuel) == {};
    } else {
      var rule := rules[0];
      if rule.condition == Always {
        assert rules[1..] == [];
        CombosMeaning(wfs, rule.next, b, fuel);
        assert SentAccepted(wfs, rules, b, fuel) == AcceptedIn(wfs, rule.next, b, fuel);
      } else {
        var pushed := UpdateRanges(rule.variable, rule.value, rule.condition, b).value;
        var carried := UpdateRanges(rule.variable, rule.value, Complement(rule.condition), b).value;
        assert AlwaysLast(rules[1..]) by {
          assert forall i :: 0 <= i < |rules[1..]| ==> rules[1..][i] == rules[i + 1];
        }
        CombosMeaning(wfs, rule.next, pushed, fuel);
        RuleCombosMeaning(wfs, rules[1..], carried, fuel);
        RuleSplit(wfs, rules, b, fuel, pushed, carried);
      }
    }
  }

  /** A comparison rule's two boxes split the parts its workflow sends on to be accepted. */
  lemma RuleSplit(wfs: Workflows, rules: seq<Rule>, b: Box, fuel: nat, pushed: Box, carried: Box)
    requires rules != [] && IsComparison(rules[0].condition)
    requires UpdateRanges(rules[0].variable, rules[0].value, rules[0].condition, b) == Some(pushed)
    requires UpdateRanges(rules[0].variable, rules[0].value, Complement(rules[0].condition), b) == Some(carried)
    ensures |SentAccepted(wfs, rules, b, fuel)| ==
      |AcceptedIn(wfs, rules[0].next, pushed, fuel)| + |SentAccepted(wfs, rules[1..], carried, fuel)|
  {
    var rule := rules[0];
    var all := SentAccepted(wfs, rules, b, fuel);
    var first := AcceptedIn(wfs, rule.next, pushed, fuel);
    var rest := SentAccepted(wfs, rules[1..], carried, fuel);
    PointsInMember(b);
    PointsInMember(pushed);
    PointsInMember(carried);
    forall p
      ensures p in all <==> p in first || p in rest
      ensures !(p in first && p in rest)
    {
      SplitPartitions(rule, b, pushed, carried, p);
    }
    assert all == first + rest;
    assert first * rest == {};
  }

  /** What the stack entries still count, each with its own remaining fuel. */
  function Weigh(wfs: Workflows, st: seq<Entry>, fuels: seq<nat>): Option<nat>
    requires |fuels| == |st|
  {
    if st == [] then Some(0)
    else
      var n := |st| - 1;
      Plus(Weigh(wfs, st[..n], fuels[..n]), Combos(wfs, st[n].0, st[n].1, fuels[n]))
  }

  lemma {:induction false} WeighAppend(wfs: Workflows, a: seq<Entry>, fa: seq<nat>, b: seq<Entry>, fb: seq<nat>)
    requires |fa| == |a| && |fb| == |b|
    ensures Weigh(wfs, a + b, fa + fb) == Plus(Weigh(wfs, a, fa), Weigh(wfs, b, fb))
    decreases |b|
  {
    if b == [] {
      assert a + b == a && fa + fb == fa;
    } else {
      var n := |b| - 1;
      assert (a + b)[..|a| + n] == a + b[..n];
      assert (fa + fb)[..|a| + n] == fa + fb[..n];
      WeighAppend(wfs, a, fa, b[..n], fb[..n]);
    }
  }

  /** k copies of the same fuel. */
  function Fill(k: nat, fuel: nat): (r: seq<nat>)
    ensures |r| == k && forall i :: 0 <= i < k ==> r[i] == fuel
  {
    seq(k, _ => fuel)
  }

  /** The entries a workflow pushes for a box count what the workflow's rules count. */
  lemma {:induction false} PushesCombos(wfs: Workflows, rules: seq<Rule>, b: Box, fuel: nat)
    requires Pushes(rules, b).Some?
    ensures Weigh(wfs, Pushes(rules, b).value, Fill(|Pushes(rules, b).value|, fuel)) == RuleCombos(wfs, rules, b, fuel)
  {
    if rules != [] {
      var rule := rules[0];
      var next := if rule.condition == Always then b
        else UpdateRanges(rule.variable, rule.value, Complement(rule.condition), b).value;
      var pushed := if rule.condition == Always then b
        else UpdateRanges(rule.variable, rule.value, rule.condition, b).value;
      var rest := Pushes(rules[1..], next).value;
      PushesCombos(wfs, rules[1..], next, fuel);
      assert Pushes(rules, b).value == [(rule.next, pushed)] + rest;
      assert Fill(|rest| + 1, fuel) == [fuel] + Fill(|rest|, fuel);
      WeighAppend(wfs, [(rule.next, pushed)], [fuel], rest, Fill(|rest|, fuel));
      assert [(rule.next, pushed)][..0] == [] && [fuel][..0] == [];
    }
  }

  /** Pushing what a workflow sends on replaces the popped entry's count by the pushed entries' counts. */
  lemma PushStep(wfs: Workflows, st: seq<Entry>, fuels: seq<nat>, name: string, b: Box, f: nat, es: seq<Entry>)
    requires |fuels| == |st| && name in wfs && f >= 1 && !IsEmptyBox(b) && Pushes(wfs[name], b) == Some(es)
    ensures Weigh(wfs, st + es, fuels + Fill(|es|, f - 1)) == Plus(Weigh(wfs, st, fuels), Combos(wfs, Workflow(name), b, f))
  {
    PushesCombos(wfs, wfs[name], b, f - 1);
    assert Combos(wfs, Workflow(name), b, f) == RuleCombos(wfs, wfs[name], b, f - 1);
    WeighAppend(wfs, st, fuels, es, Fill(|es|, f - 1));
  }

  /** One pop of the source's stack: the popped entry leaves the stack, what it counts is split off. */
  lemma WeighPop(wfs: Workflows, st: seq<Entry>, fuels: seq<nat>)
    requires |fuels| == |st| > 0
    ensures Weigh(wfs, st, fuels) ==
      Plus(Weigh(wfs, st[..|st| - 1], fuels[..|st| - 1]), Combos(wfs, st[|st| - 1].0, st[|st| - 1].1, fuels[|st| - 1]))
  {
  }

  /**
   * `find_pos_combs` with at most `fuel` stack pops (None when they run out,
   * or on a panic). Each path from "in" visits fewer workflows than the pops
   * made, so the count is that of the start box with `fuel` visits: when
   * every workflow has its unconditional rule only last, the number of parts
   * of [1,4000]^4 the workflows accept, and so at most 4000^4.
   */
  method FindPosCombs(wfs: Workflows, fuel: nat) returns (r: Option<nat>)
    ensures r.Some? ==> Combos(wfs, Start, StartBox, fuel) == Some(r.value)
    ensures r.Some? && AllAlwaysLast(wfs) ==> r.value == |AcceptedIn(wfs, Start, StartBox, fuel)|
    ensures r.Some? && AllAlwaysLast(wfs) ==> r.value <= 256_000_000_000_000
  {
    var allCombs: nat := 0;
    var stack: seq<Entry> := [(Start, StartBox)];
    ghost var fuels: seq<nat> := [fuel];
    var steps := 0;
    assert [(Start, StartBox)][..0] == [] && [fuel][..0] == [];
    while stack != []
      invariant steps <= fuel
      invariant |fuels| == |stack|
      invariant forall i :: 0 <= i < |fuels| ==> fuels[i] + steps >= fuel
      invariant Plus(Some(allCombs), Weigh(wfs, stack, fuels)) == Combos(wfs, Start, StartBox, fuel)
      decreases fuel - steps
    {
      if steps == fuel {
        return None;
      }
      steps := steps + 1;
      WeighPop(wfs, stack, fuels);
      var (wflow, b) := stack[|stack| - 1];
      ghost var f := fuels[|stack| - 1];
      stack := stack[..|stack| - 1];
      fuels := fuels[..|fuels| - 1];
      if IsEmptyBox(b) {
        continue;
      }
      match wflow {
        case Accepted =>
          // the product of the four widths `high - low + 1` of a non-empty box
          allCombs := allCombs + Volume(b);
        case Rejected =>
        case Workflow(name) =>
          if name !in wfs {
            return None;
          }
          var next := PushRules(wfs[name], b, stack);
          if next.None? {
            return None;
          }
          ghost var es := Pushes(wfs[name], b).value;
          ghost var pushedFuels := Fill(|es|, f - 1);
          PushStep(wfs, stack, fuels, name, b, f, es);
          stack := next.value;
          fuels := fuels + pushedFuels;
      }
    }
    if AllAlwaysLast(wfs) {
      CombosMeaning(wfs, Start, StartBox, fuel);
      BoxCard(StartBox);
      PointsInMember(StartBox);
      ghost var accepted, all := AcceptedIn(wfs, Start, StartBox, fuel), PointsIn(StartBox);
      assert all == accepted + (all - accepted) && accepted * (all - accepted) == {};
      StartVolume();
    }
    return Some(allCombs);
  }

  /** `p2` with a bound of `fuel` stack pops. */
  method P2(lines: seq<string>, fuel: nat) returns (r: Option<nat>)
    ensures ParseLinesSpec(lines).None? ==> r.None?
    ensures r.Some? ==> Combos(ParseLinesSpec(lines).value.0, Start, StartBox, fuel) == Some(r.value)
    ensures r.Some? && AllAlwaysLast(ParseLinesSpec(lines).value.0) ==>
      r.value == |AcceptedIn(ParseLinesSpec(lines).value.0, Start, StartBox, fuel)|
    ensures r.Some? && AllAlwaysLast(ParseLinesSpec(lines).value.0) ==> r.value <= 256_000_000_000_000
  {
    var parsed := ParseLines(lines);
    if parsed.None? {
      return None;
    }
    r := FindPosCombs(parsed.value.0, fuel);
  }
}
