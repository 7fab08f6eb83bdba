/**
 * Day 8: a network of nodes, each with a left and a right successor, and a
 * cyclic list of 'L'/'R' instructions. Part 1 counts the steps from "AAA"
 * to "ZZZ"; part 2 walks from every node ending in 'A' until a state (node,
 * instruction position) repeats, takes the first step count at a node ending
 * in 'Z', and combines the counts with the least common multiple.
 */
module D8 {
  import opened Wrappers
  import opened Text
  import opened Arith
  import opened Euclid

  /** Each node's (left, right) successors. */
  type Network = map<string, (string, string)>

  // ---------------------------------------------------------------------
  // Parsing
  // ---------------------------------------------------------------------

  /**
   * One line `AAA = (BBB, CCC)`: the node, and the three characters after
   * the parenthesis and the first three of the last token. None where the
   * source's indexing or slicing panics.
   */
  function ParseNode(line: string): (r: Option<(string, (string, string))>)
    ensures r.Some? ==> |r.value.1.0| == 3 && |r.value.1.1| == 3
    ensures r.Some? <==> var t := SplitWhitespace(line); |t| >= 4 && |t[2]| >= 4 && |t[3]| >= 3
  {
    var t := SplitWhitespace(line);
    if |t| < 4 || |t[2]| < 4 || |t[3]| < 3 then None
    else Some((t[0], (t[2][1..4], t[3][..3])))
  }

  /** A parser of one node line. */
  type NodeParser = string -> Option<(string, (string, string))>

  /** The node lines are lines[2..k], read by `parse`; a later line for the same node replaces an earlier one. */
  function NetworkWith(parse: NodeParser, lines: seq<string>, k: nat): (r: Option<Network>)
    requires k <= |lines|
    ensures r.Some? <==> forall i :: 2 <= i < k ==> parse(lines[i]).Some?
  {
    if k <= 2 then Some(map[])
    else match (NetworkWith(parse, lines, k - 1), parse(lines[k - 1]))
      case (Some(net), Some((name, succ))) => Some(net[name := succ])
      case _ => None
  }

  /** The network of the node lines lines[2..k]. */
  function NetworkOf(lines: seq<string>, k: nat): (r: Option<Network>)
    requires k <= |lines|
    ensures r.Some? <==> forall i :: 2 <= i < k ==> ParseNode(lines[i]).Some?
  {
    NetworkWith(ParseNode, lines, k)
  }

  /** A node is in the network exactly when some line declares it, and it keeps the last declaration. */
  lemma NetworkLookup(lines: seq<string>, k: nat, name: string)
    requires k <= |lines| && NetworkOf(lines, k).Some?
    ensures name in NetworkOf(lines, k).value <==> exists i :: 2 <= i < k && ParseNode(lines[i]).value.0 == name
    ensures name in NetworkOf(lines, k).value ==>
      exists i :: 2 <= i < k && ParseNode(lines[i]).value == (name, NetworkOf(lines, k).value[name]) &&
        forall j :: i < j < k ==> ParseNode(lines[j]).value.0 != name
  {
    NetworkLookupWith(ParseNode, lines, k, name);
  }

  lemma {:induction false} NetworkLookupWith(parse: NodeParser, lines: seq<string>, k: nat, name: string)
    requires k <= |lines| && NetworkWith(parse, lines, k).Some?
    ensures name in NetworkWith(parse, lines, k).value <==> exists i :: 2 <= i < k && parse(lines[i]).value.0 == name
    ensures name in NetworkWith(parse, lines, k).value ==>
      exists i :: 2 <= i < k && parse(lines[i]).value == (name, NetworkWith(parse, lines, k).value[name]) &&
        forall j :: i < j < k ==> parse(lines[j]).value.0 != name
  {
    if k > 2 {
      NetworkLookupWith(parse, lines, k - 1, name);
      NetworkStep(parse, lines, k);
      var prev, cur := NetworkWith(parse, lines, k - 1).value, NetworkWith(parse, lines, k).value;
      var decl := parse(lines[k - 1]).value;
      if decl.0 == name {
        assert cur[name] == decl.1;
        assert parse(lines[k - 1]).value == (name, cur[name]);
      } else {
        assert name in cur <==> name in prev;
        if name in cur {
          assert cur[name] == prev[name];
          var i :| 2 <= i < k - 1 && parse(lines[i]).value == (name, prev[name]) &&
            forall j :: i < j < k - 1 ==> parse(lines[j]).value.0 != name;
          forall j | i < j < k
            ensures parse(lines[j]).value.0 != name
          {
            if j == k - 1 {
              assert parse(lines[j]).value == decl;
            }
          }
        }
      }
    }
  }

  /** One more node line: the network grows by that line's declaration. */
  lemma NetworkStep(parse: NodeParser, lines: seq<string>, k: nat)
    requires 2 < k <= |lines| && NetworkWith(parse, lines, k).Some?
    ensures NetworkWith(parse, lines, k - 1).Some? && parse(lines[k - 1]).Some?
    ensures NetworkWith(parse, lines, k).value ==
      NetworkWith(parse, lines, k - 1).value[parse(lines[k - 1]).value.0 := parse(lines[k - 1]).value.1]
  {
  }

  /** `parse_lines`: the instructions (line 0) and the network; None where the source panics. */
  function Parsed(lines: seq<string>): Option<(string, Network)>
  {
    if |lines| == 0 then None
    else match NetworkOf(lines, |lines|)
      case None => None
      case Some(net) => Some((lines[0], net))
  }

  method ParseLines(lines: seq<string>) returns (r: Option<(string, Network)>)
    ensures r == Parsed(lines)
  {
    if |lines| == 0 {
      return None;
    }
    var net: Network := map[];
    if |lines| > 2 {
      for i := 2 to |lines|
        invariant NetworkOf(lines, i) == Some(net)
      {
        var node := ParseNode(lines[i]);
        if node.None? {
          NetworkFails(lines, i + 1, |lines|);
          return None;
        }
        net := net[node.value.0 := node.value.1];
      }
    }
    return Some((lines[0], net));
  }

  lemma {:induction false} NetworkFails(lines: seq<string>, k: nat, n: nat)
    requires k <= n <= |lines| && NetworkOf(lines, k).None?
    ensures NetworkOf(lines, n).None?
    decreases n
  {
    if n > k {
      NetworkFails(lines, k, n - 1);
    }
  }

  // ---------------------------------------------------------------------
  // Walking
  // ---------------------------------------------------------------------

  /** The node the walk is at and the index of the next instruction. */
  datatype State = State(node: string, ptr: nat)

  /**
   * One move. 'L' takes the left successor; any other instruction takes the
   * right one, or in strict mode only 'R' does and anything else is a panic.
   * A node missing from the network, or an empty instruction list, is a panic.
   */
  function Next(instr: string, net: Network, s: State, strict: bool): (r: Option<State>)
    ensures r.Some? ==> r.value.ptr < |instr| && s.node in net
    ensures r.Some? ==> r.value.node == net[s.node].0 || r.value.node == net[s.node].1
  {
    if s.ptr >= |instr| || s.node !in net then None
    else
      var (left, right) := net[s.node];
      var p := (s.ptr + 1) % |instr|;
      if instr[s.ptr] == 'L' then Some(State(left, p))
      else if !strict || instr[s.ptr] == 'R' then Some(State(right, p))
      else None
  }

  /** The state after k moves from `start` with the first instruction next. */
  function Run(instr: string, net: Network, start: string, k: nat, strict: bool): Option<State>
  {
    if k == 0 then Some(State(start, 0))
    else match Run(instr, net, start, k - 1, strict)
      case None => None
      case Some(s) => Next(instr, net, s, strict)
  }

  /** Instruction choice: 'L' goes left, anything else right (strict mode: only 'R'). */
  lemma NextChoice(instr: string, net: Network, s: State, strict: bool)
    requires s.ptr < |instr| && s.node in net
    ensures instr[s.ptr] == 'L' ==> Next(instr, net, s, strict).Some? && Next(instr, net, s, strict).value.node == net[s.node].0
    ensures instr[s.ptr] != 'L' && (!strict || instr[s.ptr] == 'R') ==>
      Next(instr, net, s, strict).Some? && Next(instr, net, s, strict).value.node == net[s.node].1
    ensures strict && instr[s.ptr] != 'L' && instr[s.ptr] != 'R' ==> Next(instr, net, s, strict).None?
  {
  }

  /** A walk that gets k moves far got every shorter distance too. */
  lemma {:induction false} RunPrefix(instr: string, net: Network, start: string, k: nat, j: nat, strict: bool)
    requires j <= k && Run(instr, net, start, k, strict).Some?
    ensures Run(instr, net, start, j, strict).Some?
    decreases k
  {
    if j < k {
      RunPrefix(instr, net, start, k - 1, j, strict);
    }
  }

  /** The instruction pointer cycles: after k moves it is k mod the number of instructions. */
  lemma {:induction false} RunPointer(instr: string, net: Network, start: string, k: nat, strict: bool)
    requires |instr| > 0 && Run(instr, net, start, k, strict).Some?
    ensures Run(instr, net, start, k, strict).value.ptr == k % |instr|
  {
    if k > 0 {
      RunPointer(instr, net, start, k - 1, strict);
      WrapSucc(k - 1, |instr|);
    }
  }

  // ---------------------------------------------------------------------
  // Part 1
  // ---------------------------------------------------------------------

  /** The walk from "AAA" is at "ZZZ" after k moves, and at no earlier point. */
  ghost predicate ReachesZZZAt(instr: string, net: Network, k: nat)
  {
    Run(instr, net, "AAA", k, false).Some? && Run(instr, net, "AAA", k, false).value.node == "ZZZ" &&
    forall j :: 0 <= j < k ==> Run(instr, net, "AAA", j, false).Some? && Run(instr, net, "AAA", j, false).value.node != "ZZZ"
  }

  /** The step count of part 1 is unique. */
  lemma ReachesZZZUnique(instr: string, net: Network, k1: nat, k2: nat)
    requires ReachesZZZAt(instr, net, k1) && ReachesZZZAt(instr, net, k2)
    ensures k1 == k2
  {
  }

  /**
   * `calculate_steps_p1`, stopped after `fuel` moves: the walk from "AAA"
   * may never reach "ZZZ".
   */
  method StepsP1(instr: string, net: Network, fuel: nat) returns (r: Option<nat>)
    ensures r.Some? ==> r.value <= fuel && ReachesZZZAt(instr, net, r.value)
    ensures r.None? ==> forall k :: 0 <= k <= fuel ==> !ReachesZZZAt(instr, net, k)
  {
    var steps := 0;
    var current := "AAA";
    var ptr: nat := 0;
    var n := |instr|;
    while current != "ZZZ"
      invariant steps <= fuel
      invariant Run(instr, net, "AAA", steps, false) == Some(State(current, ptr))
      invariant forall j :: 0 <= j < steps ==> Run(instr, net, "AAA", j, false).Some? && Run(instr, net, "AAA", j, false).value.node != "ZZZ"
      decreases fuel - steps
    {
      if steps == fuel {
        return None;
      }
      if ptr >= n || current !in net {
        assert Run(instr, net, "AAA", steps + 1, false).None?;
        NeverAfterFailure(instr, net, steps + 1, fuel);
        return None;
      }
      var (left, right) := net[current];
      if instr[ptr] == 'L' {
        current := left;
      } else {
        current := right;
      }
      ptr := (ptr + 1) % n;
      steps := steps + 1;
    }
    return Some(steps);
  }

  lemma NeverAfterFailure(instr: string, net: Network, k: nat, fuel: nat)
    requires k >= 1 && Run(instr, net, "AAA", k, false).None?
    requires forall j :: 0 <= j < k ==> Run(instr, net, "AAA", j, false).Some? && Run(instr, net, "AAA", j, false).value.node != "ZZZ"
    ensures forall i :: 0 <= i <= fuel ==> !ReachesZZZAt(instr, net, i)
  {
  }

  // ---------------------------------------------------------------------
  // Part 2: the loop of one start node
  // ---------------------------------------------------------------------

  predicate EndsWith(node: string, c: char)
  {
    |node| > 0 && node[|node| - 1] == c
  }

  /** The state recorded after move k (k >= 1): the node reached and the instruction index just used. */
  ghost function KeyAt(instr: string, net: Network, start: string, k: nat): Option<(string, nat)>
    requires k >= 1
  {
    match (Run(instr, net, start, k, true), Run(instr, net, start, k - 1, true))
    case (Some(a), Some(b)) => Some((a.node, b.ptr))
    case _ => None
  }

  /** The first k moves succeed and record pairwise different states. */
  ghost predicate Fresh(instr: string, net: Network, start: string, k: nat)
  {
    (forall j :: 1 <= j <= k ==> KeyAt(instr, net, start, j).Some?) &&
    forall i, j :: 1 <= i < j <= k ==> KeyAt(instr, net, start, i) != KeyAt(instr, net, start, j)
  }

  /** Move R is the first whose state was recorded before. */
  ghost predicate RepeatsAt(instr: string, net: Network, start: string, R: nat)
  {
    R >= 1 && Fresh(instr, net, start, R - 1) && KeyAt(instr, net, start, R).Some? &&
    exists j :: 1 <= j < R && KeyAt(instr, net, start, j) == KeyAt(instr, net, start, R)
  }

  /** The walk fails at move k before any state repeated. */
  ghost predicate FailsAt(instr: string, net: Network, start: string, k: nat)
  {
    k >= 1 && Fresh(instr, net, start, k - 1) && KeyAt(instr, net, start, k).None?
  }

  /** Move s (1 <= s <= k) is the first to reach a node ending in 'Z'. */
  ghost predicate FirstZUpTo(instr: string, net: Network, start: string, k: nat, s: nat)
  {
    1 <= s <= k && Run(instr, net, start, s, true).Some? && EndsWith(Run(instr, net, start, s, true).value.node, 'Z') &&
    forall i :: 1 <= i < s ==> Run(instr, net, start, i, true).Some? && !EndsWith(Run(instr, net, start, i, true).value.node, 'Z')
  }

  /** None of the first k moves reaches a node ending in 'Z'. */
  ghost predicate NoZUpTo(instr: string, net: Network, start: string, k: nat)
  {
    forall i :: 1 <= i <= k ==> Run(instr, net, start, i, true).Some? && !EndsWith(Run(instr, net, start, i, true).value.node, 'Z')
  }

  /** The loop length `compute_loops` returns for `start`. */
  ghost predicate LoopsTo(instr: string, net: Network, start: string, s: nat)
  {
    exists R :: RepeatsAt(instr, net, start, R) && FirstZUpTo(instr, net, start, R, s)
  }

  /** `compute_loops` has no result for `start`. */
  ghost predicate NoLoop(instr: string, net: Network, start: string)
  {
    forall c :: !LoopsTo(instr, net, start, c)
  }

  lemma FreshPrefix(instr: string, net: Network, start: string, k: nat, j: nat)
    requires j <= k && Fresh(instr, net, start, k)
    ensures Fresh(instr, net, start, j)
  {
  }

  /** The walk stops at one point only: the first repetition, or a failure before it. */
  lemma StopUnique(instr: string, net: Network, start: string, R1: nat, R2: nat)
    requires RepeatsAt(instr, net, start, R1) || FailsAt(instr, net, start, R1)
    requires RepeatsAt(instr, net, start, R2) || FailsAt(instr, net, start, R2)
    ensures R1 == R2 && (RepeatsAt(instr, net, start, R1) <==> RepeatsAt(instr, net, start, R2))
  {
  }

  /** The loop length of a start node is unique; there is none when the walk fails or meets no 'Z' node. */
  lemma LoopsToUnique(instr: string, net: Network, start: string, s1: nat, s2: nat)
    requires LoopsTo(instr, net, start, s1) && LoopsTo(instr, net, start, s2)
    ensures s1 == s2
  {
    var R1 :| RepeatsAt(instr, net, start, R1) && FirstZUpTo(instr, net, start, R1, s1);
    var R2 :| RepeatsAt(instr, net, start, R2) && FirstZUpTo(instr, net, start, R2, s2);
    StopUnique(instr, net, start, R1, R2);
  }

  lemma NoLoops(instr: string, net: Network, start: string, s: nat)
    requires (exists R :: RepeatsAt(instr, net, start, R) && NoZUpTo(instr, net, start, R)) ||
      (exists k :: FailsAt(instr, net, start, k))
    ensures !LoopsTo(instr, net, start, s)
  {
    if LoopsTo(instr, net, start, s) {
      var R1 :| RepeatsAt(instr, net, start, R1) && FirstZUpTo(instr, net, start, R1, s);
      forall R | RepeatsAt(instr, net, start, R) || FailsAt(instr, net, start, R)
        ensures R == R1 && RepeatsAt(instr, net, start, R)
      {
        StopUnique(instr, net, start, R1, R);
      }
    }
  }

  /** How the first 'Z' step evolves with one more move. */
  lemma ZStep(instr: string, net: Network, start: string, k: nat, s: nat)
    requires Run(instr, net, start, k + 1, true).Some?
    ensures NoZUpTo(instr, net, start, k) && !EndsWith(Run(instr, net, start, k + 1, true).value.node, 'Z') ==>
      NoZUpTo(instr, net, start, k + 1)
    ensures NoZUpTo(instr, net, start, k) && EndsWith(Run(instr, net, start, k + 1, true).value.node, 'Z') ==>
      FirstZUpTo(instr, net, start, k + 1, k + 1)
    ensures FirstZUpTo(instr, net, start, k, s) ==> FirstZUpTo(instr, net, start, k + 1, s) && !NoZUpTo(instr, net, start, k + 1)
  {
  }

  /** The list of 'Z' step counts, extended by one move, still starts with the first one. */
  lemma EndsStep(instr: string, net: Network, start: string, k: nat, ends: seq<nat>, ends': seq<nat>)
    requires Run(instr, net, start, k + 1, true).Some?
    requires |ends| == 0 <==> NoZUpTo(instr, net, start, k)
    requires |ends| > 0 ==> FirstZUpTo(instr, net, start, k, ends[0])
    requires ends' == if EndsWith(Run(instr, net, start, k + 1, true).value.node, 'Z') then ends + [k + 1] else ends
    ensures |ends'| == 0 <==> NoZUpTo(instr, net, start, k + 1)
    ensures |ends'| > 0 ==> FirstZUpTo(instr, net, start, k + 1, ends'[0])
  {
    ZStep(instr, net, start, k, if |ends| > 0 then ends[0] else 0);
    if |ends'| > 0 {
      assert ends'[0] == if |ends| > 0 then ends[0] else k + 1;
    }
  }

  /** Every node some node leads to. */
  function Targets(net: Network): set<string>
  {
    (set k | k in net :: net[k].0) + (set k | k in net :: net[k].1)
  }

  /** Every state that can be recorded: a target node and an instruction index. */
  function Candidates(net: Network, n: nat): set<(string, nat)>
  {
    set v, p | v in Targets(net) && 0 <= p < n :: (v, p)
  }

  /** A state reached by a move is a candidate. */
  lemma RecordCandidate(net: Network, n: nat, from: string, v: string, p: nat)
    requires from in net && (v == net[from].0 || v == net[from].1) && p < n
    ensures (v, p) in Candidates(net, n)
  {
    assert v in Targets(net);
  }

  /** Recording one more fresh state. */
  lemma FreshStep(instr: string, net: Network, start: string, k: nat, visited: map<(string, nat), nat>)
    requires Fresh(instr, net, start, k)
    requires forall key :: key in visited <==> exists j :: 1 <= j <= k && KeyAt(instr, net, start, j) == Some(key)
    requires KeyAt(instr, net, start, k + 1).Some? && KeyAt(instr, net, start, k + 1).value !in visited
    ensures Fresh(instr, net, start, k + 1)
  {
  }

  lemma VisitedStep(instr: string, net: Network, start: string, k: nat, visited: map<(string, nat), nat>, key: (string, nat), v: nat)
    requires forall key :: key in visited <==> exists j :: 1 <= j <= k && KeyAt(instr, net, start, j) == Some(key)
    requires KeyAt(instr, net, start, k + 1) == Some(key)
    ensures forall q :: q in visited[key := v] <==> exists j :: 1 <= j <= k + 1 && KeyAt(instr, net, start, j) == Some(q)
  {
    forall q | q in visited[key := v]
      ensures exists j :: 1 <= j <= k + 1 && KeyAt(instr, net, start, j) == Some(q)
    {
      if q == key {
        assert KeyAt(instr, net, start, k + 1) == Some(q);
      }
    }
  }

  /** A move that panics after k fresh moves is the failure point. */
  lemma FailsNext(instr: string, net: Network, start: string, k: nat, s: State)
    requires Fresh(instr, net, start, k) && Run(instr, net, start, k, true) == Some(s)
    requires Next(instr, net, s, true).None?
    ensures FailsAt(instr, net, start, k + 1)
  {
  }

  /** A move that succeeds records the node reached and the instruction index used. */
  lemma KeyNext(instr: string, net: Network, start: string, k: nat, s: State)
    requires Run(instr, net, start, k, true) == Some(s) && Next(instr, net, s, true).Some?
    ensures Run(instr, net, start, k + 1, true) == Next(instr, net, s, true)
    ensures KeyAt(instr, net, start, k + 1) == Some((Next(instr, net, s, true).value.node, s.ptr))
  {
  }

  /** One move of `compute_loops`: look up the node's successors and follow the instruction. */
  method Move(instr: string, net: Network, current: string, ptr: nat) returns (r: Option<State>)
    ensures r == Next(instr, net, State(current, ptr), true)
    ensures r.Some? ==> current in net && ptr < |instr|
    ensures r.Some? ==> r.value.node == (if instr[ptr] == 'L' then net[current].0 else net[current].1)
  {
    if current !in net || ptr >= |instr| {
      return None;
    }
    var (left, right) := net[current];
    var next := (ptr + 1) % |instr|;
    match instr[ptr] {
      case 'L' =>
        r := Some(State(left, next));
      case 'R' =>
        r := Some(State(right, next));
      case _ =>
        r := None;
    }
  }

  /**
   * `compute_loops`: walk from `start`, recording each state, until a state
   * repeats; return the first step count at a node ending in 'Z'. None where
   * the source panics (a missing node, an instruction other than 'L'/'R',
   * or no 'Z' node before the repetition).
   */
  method ComputeLoops(instr: string, net: Network, start: string) returns (r: Option<nat>)
    ensures r.Some? ==> LoopsTo(instr, net, start, r.value)
    ensures r.None? ==>
      (exists R :: RepeatsAt(instr, net, start, R) && NoZUpTo(instr, net, start, R)) ||
      (exists k :: FailsAt(instr, net, start, k))
  {
    var steps := 0;
    var ptr: nat := 0;
    var n := |instr|;
    var visited: map<(string, nat), nat> := map[];
    var current := start;
    var ends: seq<nat> := [];
    while true
      invariant Run(instr, net, start, steps, true) == Some(State(current, ptr))
      invariant Fresh(instr, net, start, steps)
      invariant forall key :: key in visited <==> exists j :: 1 <= j <= steps && KeyAt(instr, net, start, j) == Some(key)
      invariant visited.Keys <= Candidates(net, n)
      invariant |ends| == 0 <==> NoZUpTo(instr, net, start, steps)
      invariant |ends| > 0 ==> FirstZUpTo(instr, net, start, steps, ends[0])
      decreases Candidates(net, n) - visited.Keys
    {
      ghost var s := State(current, ptr);
      var moved := Move(instr, net, current, ptr);
      if moved.None? {
        FailsNext(instr, net, start, steps, s);
        return None;
      }
      var used := ptr;
      current, ptr := moved.value.node, moved.value.ptr;
      KeyNext(instr, net, start, steps, s);
      ghost var prev := steps;
      steps := steps + 1;
      ghost var ends0 := ends;
      if EndsWith(current, 'Z') {
        ends := ends + [steps];
      }
      EndsStep(instr, net, start, prev, ends0, ends);
      var key := (current, used);
      if key in visited {
        assert RepeatsAt(instr, net, start, steps);
        if |ends| == 0 {
          return None;
        }
        return Some(ends[0]);
      }
      FreshStep(instr, net, start, prev, visited);
      VisitedStep(instr, net, start, prev, visited, key, steps);
      RecordCandidate(net, n, s.node, current, used);
      ghost var remaining := Candidates(net, n) - visited.Keys;
      visited := visited[key := steps];
      assert Candidates(net, n) - visited.Keys == remaining - {key};
    }
  }

  // ---------------------------------------------------------------------
  // Part 2: all start nodes
  // ---------------------------------------------------------------------

  /** A loop length is a positive step count. */
  lemma LoopsPositive(instr: string, net: Network, start: string, s: nat)
    requires LoopsTo(instr, net, start, s)
    ensures s >= 1
  {
  }

  /** The nodes ending in 'A', in whatever order the map's keys come. */
  method StartNodes(net: Network) returns (starts: seq<string>)
    ensures forall v :: v in starts <==> v in net && EndsWith(v, 'A')
  {
    starts := [];
    var left := net.Keys;
    while left != {}
      invariant left <= net.Keys
      invariant forall v :: v in starts <==> v in net.Keys - left && EndsWith(v, 'A')
      decreases |left|
    {
      var v :| v in left;
      if EndsWith(v, 'A') {
        starts := starts + [v];
      }
      left := left - {v};
    }
  }

  /** The loop length of every start node, in order; None when one of the walks panics. */
  method AllLoops(instr: string, net: Network, starts: seq<string>) returns (r: Option<seq<nat>>)
    ensures r.Some? ==> |r.value| == |starts|
    ensures r.Some? ==>
      forall j :: 0 <= j < |starts| ==> r.value[j] > 0 && LoopsTo(instr, net, starts[j], r.value[j])
    ensures r.None? ==> exists j :: 0 <= j < |starts| && NoLoop(instr, net, starts[j])
  {
    var loops: seq<nat> := [];
    for i := 0 to |starts|
      invariant |loops| == i
      invariant forall j :: 0 <= j < i ==> loops[j] > 0 && LoopsTo(instr, net, starts[j], loops[j])
    {
      var l := ComputeLoops(instr, net, starts[i]);
      if l.None? {
        forall c | true
          ensures !LoopsTo(instr, net, starts[i], c)
        {
          NoLoops(instr, net, starts[i], c);
        }
        assert NoLoop(instr, net, starts[i]);
        return None;
      }
      LoopsPositive(instr, net, starts[i], l.value);
      loops := loops + [l.value];
    }
    return Some(loops);
  }

  /**
   * `calculate_steps_p2`: the least-common-multiple fold of the loop lengths
   * of the start nodes. The result is a positive common multiple of every
   * start node's loop length; None when there is no start node or one of
   * the walks panics.
   */
  method StepsP2(instr: string, net: Network) returns (r: Option<nat>)
    ensures r.Some? ==> r.value > 0 && exists v :: v in net && EndsWith(v, 'A')
    ensures r.Some? ==> forall v :: v in net && EndsWith(v, 'A') ==>
      exists c :: LoopsTo(instr, net, v, c) && Divides(c, r.value)
    ensures r.None? ==>
      (forall v :: v in net ==> !EndsWith(v, 'A')) ||
      exists v :: v in net && EndsWith(v, 'A') && NoLoop(instr, net, v)
  {
    var starts := StartNodes(net);
    var loops := AllLoops(instr, net, starts);
    if loops.None? {
      ghost var j :| 0 <= j < |starts| && NoLoop(instr, net, starts[j]);
      assert starts[j] in net && EndsWith(starts[j], 'A');
      return None;
    }
    if |starts| == 0 {
      assert forall v :: v in net ==> !EndsWith(v, 'A');
      r := Lcm(loops.value);
      return;
    }
    LcmOfIsCommonMultiple(loops.value);
    r := Lcm(loops.value);
    assert starts[0] in net;
    forall v | v in net && EndsWith(v, 'A')
      ensures exists c :: LoopsTo(instr, net, v, c) && Divides(c, r.value)
    {
      var j :| 0 <= j < |starts| && starts[j] == v;
      assert LoopsTo(instr, net, v, loops.value[j]) && Divides(loops.value[j], r.value);
    }
  }

  /** Part 1, with at most `fuel` moves. */
  method P1(lines: seq<string>, fuel: nat) returns (r: Option<nat>)
    ensures Parsed(lines).None? ==> r.None?
    ensures r.Some? ==> ReachesZZZAt(Parsed(lines).value.0, Parsed(lines).value.1, r.value)
    ensures r.None? && Parsed(lines).Some? ==>
      forall k :: 0 <= k <= fuel ==> !ReachesZZZAt(Parsed(lines).value.0, Parsed(lines).value.1, k)
  {
    var parsed := ParseLines(lines);
    if parsed.None? {
      return None;
    }
    r := StepsP1(parsed.value.0, parsed.value.1, fuel);
  }

  method P2(lines: seq<string>) returns (r: Option<nat>)
    ensures Parsed(lines).None? ==> r.None?
    ensures r.Some? ==> forall v :: v in Parsed(lines).value.1 && EndsWith(v, 'A') ==>
      exists c :: LoopsTo(Parsed(lines).value.0, Parsed(lines).value.1, v, c) && Divides(c, r.value)
  {
    var parsed := ParseLines(lines);
    if parsed.None? {
      return None;
    }
    r := StepsP2(parsed.value.0, parsed.value.1);
  }
}
