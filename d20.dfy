/**
 * Day 20: a network of pulse modules. Flip-flops ('%') toggle on a low
 * pulse, conjunctions ('&') remember the last pulse from each input and send
 * low only when all are high, and the broadcaster forwards the button's low
 * pulse. Pulses are processed in first-in first-out order.
 */
module D20 {
  import opened Wrappers
  import opened Text
  import opened Euclid

  datatype Pulse = High | Low

  datatype Module =
    | FlipFlop(on: bool, dests: seq<string>)
    | Conjunction(inputs: map<string, Pulse>, dests: seq<string>)
    | Broadcast(dests: seq<string>)
    | Noop

  type Modules = map<string, Module>
  /** For each module name, the names of the modules that send to it. */
  type Senders = map<string, set<string>>

  datatype Message = Message(from: string, to: string, pulse: Pulse)

  // ---------------------------------------------------------------------
  // Parsing
  // ---------------------------------------------------------------------

  /** One line `name -> a, b, c`: the module's name (prefix removed), the module and its outputs. */
  datatype Decl = Decl(name: string, component: Module, outputs: seq<string>)

  /** A line without "->" is a panic (the second `split` piece is missing). */
  function ParseDecl(line: string): (r: Option<Decl>)
    ensures r.None? <==> |SplitStr(line, "->")| < 2
    ensures r.Some? ==>
      var raw := Trim(SplitStr(line, "->")[0]);
      var pieces := Split(SplitStr(line, "->")[1], ',');
      && |r.value.outputs| == |pieces|
      && (forall i :: 0 <= i < |pieces| ==> r.value.outputs[i] == Trim(pieces[i]))
      && (r.value.component.Broadcast? <==> raw == "broadcaster")
      && (r.value.component.FlipFlop? <==> |raw| > 0 && raw[0] == '%')
      && (r.value.component.Conjunction? <==> |raw| > 0 && raw[0] == '&')
      && (if |raw| > 0 && raw[0] in "%&" then [raw[0]] + r.value.name == raw else r.value.name == raw)
    ensures r.Some? ==> r.value.component.Noop? || r.value.component.dests == r.value.outputs
    ensures r.Some? && r.value.component.FlipFlop? ==> !r.value.component.on
    ensures r.Some? && r.value.component.Conjunction? ==> r.value.component.inputs == map[]
  {
    var parts := SplitStr(line, "->");
    if |parts| < 2 then None
    else
      var raw := Trim(parts[0]);
      var outputs := TrimAll(Split(parts[1], ','));
      if raw == "broadcaster" then Some(Decl(raw, Broadcast(outputs), outputs))
      else if |raw| > 0 && raw[0] == '%' then Some(Decl(raw[1..], FlipFlop(false, outputs), outputs))
      else if |raw| > 0 && raw[0] == '&' then Some(Decl(raw[1..], Conjunction(map[], outputs), outputs))
      else Some(Decl(raw, Noop, outputs))
  }

  function Get(senders: Senders, name: string): set<string>
  {
    if name in senders then senders[name] else {}
  }

  /** Records `name` as a sender of each of `outputs`. */
  function AddSenders(senders: Senders, outputs: seq<string>, name: string): (r: Senders)
    ensures forall t :: t in r <==> t in senders || t in outputs
    ensures forall t :: t in r ==> r[t] == Get(senders, t) + (if t in outputs then {name} else {})
    decreases |outputs|
  {
    if outputs == [] then senders
    else AddSenders(senders[outputs[0] := Get(senders, outputs[0]) + {name}], outputs[1..], name)
  }

  /** The modules (a later line with the same name wins) and the senders of the parsed lines. */
  function Collect(decls: seq<Decl>): (Modules, Senders)
  {
    if decls == [] then (map[], map[])
    else
      var (modules, senders) := Collect(decls[..|decls| - 1]);
      var d := decls[|decls| - 1];
      (modules[d.name := d.component], AddSenders(senders, d.outputs, d.name))
  }

  /** Every sender set is non-empty, and s sends to t exactly when some line names s with output t. */
  lemma {:induction false} CollectSenders(decls: seq<Decl>, t: string, s: string)
    ensures t in Collect(decls).1 ==> Collect(decls).1[t] != {}
    ensures t in Collect(decls).1 && s in Collect(decls).1[t] <==>
      exists i :: 0 <= i < |decls| && decls[i].name == s && t in decls[i].outputs
  {
    if decls != [] {
      var init := decls[..|decls| - 1];
      CollectSenders(init, t, s);
      if exists i :: 0 <= i < |init| && init[i].name == s && t in init[i].outputs {
        var i :| 0 <= i < |init| && init[i].name == s && t in init[i].outputs;
        assert decls[i] == init[i];
      }
      if exists i :: 0 <= i < |decls| && decls[i].name == s && t in decls[i].outputs {
        var i :| 0 <= i < |decls| && decls[i].name == s && t in decls[i].outputs;
        if i < |init| {
          assert init[i] == decls[i];
        }
      }
    }
  }

  /** Modules are declared under their names: a name maps to the last line that declares it. */
  lemma {:induction false} CollectModules(decls: seq<Decl>, name: string)
    ensures name in Collect(decls).0 <==> exists i :: 0 <= i < |decls| && decls[i].name == name
    ensures name in Collect(decls).0 ==>
      exists i :: 0 <= i < |decls| && decls[i].name == name && Collect(decls).0[name] == decls[i].component
  {
    if decls != [] {
      var init := decls[..|decls| - 1];
      CollectModules(init, name);
      if exists i :: 0 <= i < |init| && init[i].name == name {
        var i :| 0 <= i < |init| && init[i].name == name;
        assert decls[i] == init[i];
      }
      if name in Collect(init).0 && decls[|decls| - 1].name != name {
        var i :| 0 <= i < |init| && init[i].name == name && Collect(init).0[name] == init[i].component;
        assert decls[i] == init[i];
      }
      if exists i :: 0 <= i < |decls| && decls[i].name == name {
        var i :| 0 <= i < |decls| && decls[i].name == name;
        if i < |init| {
          assert init[i] == decls[i];
        }
      }
    }
  }

  /** A module after wiring with the inputs `froms`: a conjunction remembers Low for each of them. */
  function WireWith(modules: Modules, name: string, froms: set<string>): Module
  {
    if name !in modules then Noop
    else match modules[name]
      case Conjunction(inputs, dests) => Conjunction(inputs + (map f | f in froms :: Low), dests)
      case m => m
  }

  /** The second pass of the parse: every destination becomes a module, conjunctions learn their inputs. */
  function Wire(modules: Modules, senders: Senders): Modules
  {
    map k | k in modules.Keys + senders.Keys :: if k in senders then WireWith(modules, k, senders[k]) else modules[k]
  }

  /** The declarations of all lines; None when some line has no "->". */
  function Decls(lines: seq<string>): (r: Option<seq<Decl>>)
    ensures r.None? <==> exists i :: 0 <= i < |lines| && ParseDecl(lines[i]).None?
    ensures r.Some? ==> |r.value| == |lines| && forall i :: 0 <= i < |lines| ==> ParseDecl(lines[i]) == Some(r.value[i])
  {
    MapAll(ParseDecl, lines)
  }

  /** The result of the whole parse. */
  function ParseSpec(lines: seq<string>): Option<(Modules, Senders)>
  {
    match Decls(lines)
    case None => None
    case Some(decls) => Some((Wire(Collect(decls).0, Collect(decls).1), Collect(decls).1))
  }

  /** The first pass of the parse (the loop over lines). */
  method CollectLines(lines: seq<string>) returns (r: Option<(Modules, Senders)>)
    ensures r == if Decls(lines).None? then None else Some(Collect(Decls(lines).value))
  {
    var modules: Modules := map[];
    var senders: Senders := map[];
    ghost var decls: seq<Decl> := [];
    for k := 0 to |lines|
      invariant (modules, senders) == Collect(decls)
      invariant Decls(lines[..k]) == Some(decls)
    {
      MapAllSnoc(ParseDecl, lines, k);
      var d := ParseDecl(lines[k]);
      if d.None? {
        return None;
      }
      var decl := d.value;
      modules := modules[decl.name := decl.component];
      senders := AddEachSender(senders, decl.outputs, decl.name);
      CollectSnoc(decls, decl);
      decls := decls + [decl];
    }
    assert lines[..|lines|] == lines;
    return Some((modules, senders));
  }

  lemma CollectSnoc(decls: seq<Decl>, d: Decl)
    ensures Collect(decls + [d]) == (Collect(decls).0[d.name := d.component], AddSenders(Collect(decls).1, d.outputs, d.name))
  {
    assert (decls + [d])[..|decls|] == decls;
  }

  /** The inner loop over one line's outputs: each records the line's module as a sender. */
  method AddEachSender(senders0: Senders, outputs: seq<string>, name: string) returns (senders: Senders)
    ensures senders == AddSenders(senders0, outputs, name)
  {
    senders := senders0;
    for j := 0 to |outputs|
      invariant AddSenders(senders, outputs[j..], name) == AddSenders(senders0, outputs, name)
    {
      var output := outputs[j];
      assert outputs[j..][1..] == outputs[j + 1..];
      senders := senders[output := Get(senders, output) + {name}];
    }
    assert outputs[|outputs|..] == [];
  }

  /** The map after wiring the keys in `done`; the other keys are unchanged. */
  ghost predicate WiredPart(modules: Modules, senders: Senders, r: Modules, done: set<string>)
  {
    done <= senders.Keys
    && r.Keys == modules.Keys + done
    && forall k :: k in r ==> r[k] == (if k in done then WireWith(modules, k, senders[k]) else modules[k])
  }

  /** The inner loop's step: a conjunction records Low for one more sender. */
  function RecordLow(m: Module, from: string): Module
  {
    match m
    case Conjunction(inputs, dests) => Conjunction(inputs[from := Low], dests)
    case _ => m
  }

  lemma WireWithStep(modules: Modules, to: string, done: set<string>, from: string)
    ensures WireWith(modules, to, {}) == if to in modules then modules[to] else Noop
    ensures WireWith(modules, to, done + {from}) == RecordLow(WireWith(modules, to, done), from)
  {
    if to in modules && modules[to].Conjunction? {
      var inputs := modules[to].inputs;
      var none: set<string> := {};
      assert (map f | f in none :: Low) == map[];
      assert inputs + (map f | f in done + {from} :: Low) == (inputs + (map f | f in done :: Low))[from := Low];
    }
  }

  lemma WiredPartStep(modules: Modules, senders: Senders, r: Modules, done: set<string>, to: string)
    requires WiredPart(modules, senders, r, done) && to in senders && to !in done
    ensures WiredPart(modules, senders, r[to := WireWith(modules, to, senders[to])], done + {to})
  {
  }

  lemma WiredPartAll(modules: Modules, senders: Senders, r: Modules)
    requires WiredPart(modules, senders, r, senders.Keys)
    ensures r == Wire(modules, senders)
  {
  }

  /** The inner loop: records Low for each sender of `to` (a missing `to` becomes a NOOP module first). */
  method WireOne(modules: Modules, r0: Modules, to: string, froms0: set<string>) returns (r: Modules)
    requires froms0 != {}
    requires to in r0 <==> to in modules
    requires to in r0 ==> r0[to] == modules[to]
    ensures r == r0[to := WireWith(modules, to, froms0)]
  {
    r := r0;
    var froms := froms0;
    ghost var done: set<string> := {};
    while froms != {}
      invariant froms <= froms0 && done == froms0 - froms
      invariant done == {} ==> r == r0
      invariant done != {} ==> r == r0[to := WireWith(modules, to, done)]
      decreases froms
    {
      var from :| from in froms;
      WireWithStep(modules, to, done, from);
      if to !in r {
        r := r[to := Noop];
      }
      r := r[to := RecordLow(r[to], from)];
      froms := froms - {from};
      done := done + {from};
    }
    assert done == froms0;
  }

  /**
   * The second pass (the loop over the senders map): a destination that is
   * not declared becomes a NOOP module, and each conjunction records Low for
   * every sender. Both maps are visited in an unspecified order.
   */
  method WireInputs(modules: Modules, senders: Senders) returns (r: Modules)
    requires forall t :: t in senders ==> senders[t] != {}
    ensures r == Wire(modules, senders)
  {
    r := modules;
    var todo := senders.Keys;
    while todo != {}
      invariant todo <= senders.Keys
      invariant WiredPart(modules, senders, r, senders.Keys - todo)
      decreases todo
    {
      var to :| to in todo;
      ghost var r0 := r;
      r := WireOne(modules, r, to, senders[to]);
      WiredPartStep(modules, senders, r0, senders.Keys - todo, to);
      todo := todo - {to};
      assert senders.Keys - todo == (senders.Keys - (todo + {to})) + {to};
    }
    WiredPartAll(modules, senders, r);
  }

  /** The destinations of a module (a NOOP module has none). */
  function Dests(m: Module): seq<string>
  {
    if m.Noop? then [] else m.dests
  }

  /** Every destination of every module names a module. */
  ghost predicate Closed(modules: Modules)
  {
    forall k, i :: k in modules && 0 <= i < |Dests(modules[k])| ==> Dests(modules[k])[i] in modules
  }

  /**
   * Parses the module lines: None where the source panics (a line without
   * "->").
   */
  method ParseLines(lines: seq<string>) returns (r: Option<(Modules, Senders)>)
    ensures r == ParseSpec(lines)
  {
    var collected := CollectLines(lines);
    if collected.None? {
      return None;
    }
    ghost var decls := Decls(lines).value;
    var (modules, senders) := collected.value;
    forall t | t in senders ensures senders[t] != {} {
      CollectSenders(decls, t, "");
    }
    var wired := WireInputs(modules, senders);
    return Some((wired, senders));
  }

  /** After parsing, every destination of every module is a module (NOOP if never declared). */
  lemma ParsedClosed(lines: seq<string>)
    requires ParseSpec(lines).Some?
    ensures Closed(ParseSpec(lines).value.0)
  {
    var decls := Decls(lines).value;
    var (modules, senders) := Collect(decls);
    var w := Wire(modules, senders);
    forall j, i | j in w && 0 <= i < |Dests(w[j])|
      ensures Dests(w[j])[i] in w
    {
      CollectModules(decls, j);
      var n :| 0 <= n < |decls| && decls[n].name == j && modules[j] == decls[n].component;
      CollectSenders(decls, Dests(w[j])[i], j);
    }
  }

  /** A conjunction collected from the lines has not learnt any input yet. */
  lemma CollectedConjunctionEmpty(lines: seq<string>, k: string)
    requires Decls(lines).Some?
    ensures var modules := Collect(Decls(lines).value).0;
      k in modules && modules[k].Conjunction? ==> modules[k].inputs == map[]
  {
    var decls := Decls(lines).value;
    CollectModules(decls, k);
    if k in Collect(decls).0 {
      var n :| 0 <= n < |decls| && decls[n].name == k && Collect(decls).0[k] == decls[n].component;
      assert ParseDecl(lines[n]) == Some(decls[n]);
    }
  }

  /** Wiring gives a conjunction that started without inputs exactly its senders, all Low. */
  lemma WireConjunctionInputs(modules: Modules, senders: Senders, k: string)
    requires k in modules && modules[k].Conjunction? ==> modules[k].inputs == map[]
    ensures var w := Wire(modules, senders);
      k in w && w[k].Conjunction? ==> w[k].inputs == map f | f in Get(senders, k) :: Low
  {
    var w := Wire(modules, senders);
    if k in w && w[k].Conjunction? {
      if k in senders {
        assert w[k] == WireWith(modules, k, senders[k]);
        assert map[] + (map f | f in senders[k] :: Low) == (map f | f in senders[k] :: Low);
      } else {
        var none: set<string> := {};
        assert Get(senders, k) == none;
        assert (map f | f in none :: Low) == map[];
      }
    }
  }

  /** After parsing, each conjunction remembers Low for exactly the modules sending to it. */
  lemma ParsedConjunctionInputs(lines: seq<string>, k: string)
    requires ParseSpec(lines).Some?
    ensures var (w, senders) := ParseSpec(lines).value;
      k in w && w[k].Conjunction? ==> w[k].inputs == map f | f in Get(senders, k) :: Low
  {
    CollectedConjunctionEmpty(lines, k);
    var collected := Collect(Decls(lines).value);
    WireConjunctionInputs(collected.0, collected.1, k);
  }

  // ---------------------------------------------------------------------
  // Pulse handling
  // ---------------------------------------------------------------------

  predicate AllHigh(inputs: map<string, Pulse>)
  {
    forall k :: k in inputs ==> inputs[k] == High
  }

  /** A module's new state and the pulse it sends to all its destinations, if any. */
  datatype Reaction = Reaction(state: Module, sent: Option<Pulse>)

  /**
   * How one module handles a pulse from `from`. None where the source
   * panics: a High pulse to the broadcaster, or a conjunction that does not
   * know the sender.
   */
  function React(m: Module, from: string, pulse: Pulse): (r: Option<Reaction>)
    ensures m.Noop? ==> r == Some(Reaction(m, None))
    ensures m.Broadcast? ==> r == if pulse == Low then Some(Reaction(m, Some(Low))) else None
    ensures m.FlipFlop? && pulse == High ==> r == Some(Reaction(m, None))
    ensures m.FlipFlop? && pulse == Low ==>
      r == Some(Reaction(FlipFlop(!m.on, m.dests), Some(if m.on then Low else High)))
    ensures m.Conjunction? ==> (r.Some? <==> from in m.inputs)
    ensures m.Conjunction? && r.Some? ==>
      r.value.state == Conjunction(m.inputs[from := pulse], m.dests)
      && r.value.sent == Some(if AllHigh(m.inputs[from := pulse]) then Low else High)
  {
    match m
    case Broadcast(_) => if pulse != Low then None else Some(Reaction(m, Some(Low)))
    case FlipFlop(on, dests) =>
      if pulse == High then Some(Reaction(m, None))
      else Some(Reaction(FlipFlop(!on, dests), Some(if on then Low else High)))
    case Conjunction(inputs, dests) =>
      if from !in inputs then None
      else
        var updated := inputs[from := pulse];
        Some(Reaction(Conjunction(updated, dests), Some(if AllHigh(updated) then Low else High)))
    case Noop => Some(Reaction(m, None))
  }

  /** The messages a reaction enqueues, in destination order. */
  function Sends(from: string, dests: seq<string>, sent: Option<Pulse>): (s: seq<Message>)
    ensures |s| == (if sent.Some? then |dests| else 0)
    ensures forall i :: 0 <= i < |s| ==> s[i] == Message(from, dests[i], sent.value)
  {
    if sent.None? then [] else seq(|dests|, i requires 0 <= i < |dests| => Message(from, dests[i], sent.value))
  }

  /**
   * A reaction keeps the module's kind and destinations, so the network
   * stays closed and everything it sends goes to an existing module; in a
   * parsed network the only failure left is a High pulse to the broadcaster.
   */
  lemma ReactKeepsClosed(modules: Modules, msg: Message)
    requires Closed(modules) && msg.to in modules
    requires modules[msg.to].Conjunction? ==> msg.from in modules[msg.to].inputs
    ensures React(modules[msg.to], msg.from, msg.pulse).None? <==> modules[msg.to].Broadcast? && msg.pulse == High
    ensures React(modules[msg.to], msg.from, msg.pulse).Some? ==>
      var r := React(modules[msg.to], msg.from, msg.pulse).value;
      Closed(modules[msg.to := r.state])
      && forall i :: 0 <= i < |Sends(msg.to, Dests(modules[msg.to]), r.sent)| ==>
        Sends(msg.to, Dests(modules[msg.to]), r.sent)[i].to in modules
  {
    var m := modules[msg.to];
    if React(m, msg.from, msg.pulse).Some? {
      var r := React(m, msg.from, msg.pulse).value;
      assert Dests(r.state) == Dests(m);
      var after := modules[msg.to := r.state];
      forall k, i | k in after && 0 <= i < |Dests(after[k])| ensures Dests(after[k])[i] in after {
        assert Dests(after[k]) == Dests(modules[k]);
      }
    }
  }

  // ---------------------------------------------------------------------
  // The simulation
  // ---------------------------------------------------------------------

  /**
   * The simulation state: modules, pulse counters, the presses at which a
   * watched conjunction sent High, and the conjunctions still watched.
   */
  datatype Run = Run(modules: Modules, low: nat, high: nat, cycles: seq<nat>, watch: set<string>)

  datatype Outcome = Continue(run: Run) | Found(cycles: seq<nat>)

  /** The counters after a module sends `sent` to `dests`: only counted in part 1. */
  function Tally(run: Run, sent: Option<Pulse>, n: nat, isP2: bool): (nat, nat)
  {
    if isP2 || sent.None? then (run.low, run.high)
    else if sent.value == Low then (run.low + n, run.high)
    else (run.low, run.high + n)
  }

  /** The state after handling `msg`, including the part-2 watch on conjunctions sending High. */
  function Handle(run: Run, msg: Message, r: Reaction, press: nat, isP2: bool): Run
    requires msg.to in run.modules
  {
    var (low, high) := Tally(run, r.sent, |Dests(run.modules[msg.to])|, isP2);
    var tracked := isP2 && run.modules[msg.to].Conjunction? && msg.to in run.watch && r.sent == Some(High);
    Run(run.modules[msg.to := r.state], low, high,
        if tracked then run.cycles + [press] else run.cycles,
        if tracked then run.watch - {msg.to} else run.watch)
  }

  /**
   * Processes the queue first in, first out, with a budget of `fuel`
   * messages; in part 2 it stops as soon as no conjunction is watched.
   */
  function Drain(run: Run, queue: seq<Message>, press: nat, isP2: bool, fuel: nat): Option<Outcome>
    decreases fuel
  {
    if queue == [] then Some(Continue(run))
    else if fuel == 0 || queue[0].to !in run.modules then None
    else
      var msg := queue[0];
      match React(run.modules[msg.to], msg.from, msg.pulse)
      case None => None
      case Some(r) =>
        var next := Handle(run, msg, r, press, isP2);
        if isP2 && next.watch == {} then Some(Found(next.cycles))
        else Drain(next, queue[1..] + Sends(msg.to, Dests(run.modules[msg.to]), r.sent), press, isP2, fuel - 1)
  }

  const ButtonPulse := Message("button", "broadcaster", Low)

  /** Presses the button from `press` up to `numTimes`, each press draining its queue. */
  function Presses(run: Run, press: nat, numTimes: nat, isP2: bool, fuel: nat): Option<Outcome>
    decreases numTimes + 1 - press
  {
    if press > numTimes then Some(Continue(run))
    else match Drain(run, [ButtonPulse], press, isP2, fuel)
      case None => None
      case Some(Found(c)) => Some(Found(c))
      case Some(Continue(next)) => Presses(next, press + 1, numTimes, isP2, fuel)
  }

  /** What follows a drained press: stop on Found, otherwise the remaining presses. */
  function AfterPress(o: Option<Outcome>, press: nat, numTimes: nat, isP2: bool, fuel: nat): Option<Outcome>
  {
    match o
    case None => None
    case Some(Found(c)) => Some(Found(c))
    case Some(Continue(next)) => Presses(next, press + 1, numTimes, isP2, fuel)
  }

  /** The answer: low x high after all presses, or the lcm of the cycle lengths in part 2. */
  function Answer(o: Option<Outcome>): Option<nat>
  {
    match o
    case None => None
    case Some(Found(c)) => LcmOf(c)
    case Some(Continue(run)) => Some(run.low * run.high)
  }

  /** The low counter starts at the number of presses (the button pulses). */
  function SimulateSpec(modules: Modules, numTimes: nat, isP2: bool, watch: set<string>, fuel: nat): Option<nat>
  {
    Answer(Presses(Run(modules, numTimes, 0, [], watch), 1, numTimes, isP2, fuel))
  }

  /** What `simulate_pulses` returns for a parsed network. */
  ghost predicate SimulationResult(modules: Modules, senders: Senders, numTimes: nat, isP2: bool, fuel: nat, r: Option<nat>)
  {
    ("rx" !in senders || senders["rx"] == {} ==> r == None)
    && ("rx" in senders && senders["rx"] != {} ==>
          exists f :: f in senders["rx"] && r == (if f in senders then SimulateSpec(modules, numTimes, isP2, senders[f], fuel) else None))
  }

  /**
   * The source's `simulate_pulses`: `fuel` bounds the messages handled per
   * press. The watched conjunctions are the senders of some (unspecified)
   * sender of "rx"; a missing "rx" or a missing sender set is a panic.
   */
  method SimulatePulses(modules: Modules, senders: Senders, numTimes: nat, isP2: bool, fuel: nat)
    returns (r: Option<nat>)
    ensures SimulationResult(modules, senders, numTimes, isP2, fuel, r)
  {
    if "rx" !in senders || senders["rx"] == {} {
      return None;
    }
    var finalModule :| finalModule in senders["rx"];
    if finalModule !in senders {
      return None;
    }
    var run := Run(modules, numTimes, 0, [], senders[finalModule]);
    ghost var target := Presses(run, 1, numTimes, isP2, fuel);
    var press := 1;
    while press <= numTimes
      invariant 1 <= press
      invariant Presses(run, press, numTimes, isP2, fuel) == target
      decreases numTimes + 1 - press
    {
      var queue := [ButtonPulse];
      var left := fuel;
      while queue != []
        invariant AfterPress(Drain(run, queue, press, isP2, left), press, numTimes, isP2, fuel) == target
        decreases left
      {
        if left == 0 {
          return None;
        }
        var msg := queue[0];
        if msg.to !in run.modules {
          return None;
        }
        var current := run.modules[msg.to];
        var reaction := React(current, msg.from, msg.pulse);
        if reaction.None? {
          return None;
        }
        run := Handle(run, msg, reaction.value, press, isP2);
        if isP2 && run.watch == {} {
          r := Lcm(run.cycles);
          return;
        }
        queue := queue[1..] + Sends(msg.to, Dests(current), reaction.value.sent);
        left := left - 1;
      }
      press := press + 1;
    }
    return Some(run.low * run.high);
  }

  /** Part 2 leaves the counters alone: only part 1 counts pulses. */
  lemma {:induction false} DrainKeepsCounters(run: Run, queue: seq<Message>, press: nat, fuel: nat)
    ensures Drain(run, queue, press, true, fuel).Some? && Drain(run, queue, press, true, fuel).value.Continue? ==>
      Drain(run, queue, press, true, fuel).value.run.low == run.low
      && Drain(run, queue, press, true, fuel).value.run.high == run.high
    decreases fuel
  {
    if queue != [] && fuel > 0 && queue[0].to in run.modules {
      var msg := queue[0];
      match React(run.modules[msg.to], msg.from, msg.pulse)
      case None =>
      case Some(r) =>
        var next := Handle(run, msg, r, press, true);
        DrainKeepsCounters(next, queue[1..] + Sends(msg.to, Dests(run.modules[msg.to]), r.sent), press, fuel - 1);
    }
  }

  /**
   * In part 2 every recorded cycle length is a press number, so positive,
   * and the answer is a common multiple of them.
   */
  lemma {:induction false} DrainCyclesPositive(run: Run, queue: seq<Message>, press: nat, fuel: nat)
    requires 1 <= press && forall i :: 0 <= i < |run.cycles| ==> run.cycles[i] > 0
    ensures Drain(run, queue, press, true, fuel).Some? && Drain(run, queue, press, true, fuel).value.Found? ==>
      var c := Drain(run, queue, press, true, fuel).value.cycles;
      |c| > 0 ==> LcmOf(c).Some? && forall i :: 0 <= i < |c| ==> c[i] > 0 && Divides(c[i], LcmOf(c).value)
    ensures Drain(run, queue, press, true, fuel).Some? && Drain(run, queue, press, true, fuel).value.Continue? ==>
      var c := Drain(run, queue, press, true, fuel).value.run.cycles;
      forall i :: 0 <= i < |c| ==> c[i] > 0
    decreases fuel
  {
    if queue != [] && fuel > 0 && queue[0].to in run.modules {
      var msg := queue[0];
      match React(run.modules[msg.to], msg.from, msg.pulse)
      case None =>
      case Some(r) =>
        var next := Handle(run, msg, r, press, true);
        assert forall i :: 0 <= i < |next.cycles| ==> next.cycles[i] > 0;
        if next.watch == {} {
          if |next.cycles| > 0 {
            LcmOfIsCommonMultiple(next.cycles);
          }
        } else {
          DrainCyclesPositive(next, queue[1..] + Sends(msg.to, Dests(run.modules[msg.to]), r.sent), press, fuel - 1);
        }
    }
  }

  /** Part 1: 1000 presses, low x high. */
  method P1(lines: seq<string>, fuel: nat) returns (r: Option<nat>)
    ensures ParseSpec(lines).None? ==> r.None?
    ensures ParseSpec(lines).Some? ==>
      SimulationResult(ParseSpec(lines).value.0, ParseSpec(lines).value.1, 1000, false, fuel, r)
  {
    var parsed := ParseLines(lines);
    if parsed.None? {
      return None;
    }
    var (modules, senders) := parsed.value;
    r := SimulatePulses(modules, senders, 1000, false, fuel);
  }

  /** Part 2: presses up to `numTimes` (the source uses `usize::MAX - 1`), the lcm of the cycle lengths. */
  method P2(lines: seq<string>, numTimes: nat, fuel: nat) returns (r: Option<nat>)
    ensures ParseSpec(lines).None? ==> r.None?
    ensures ParseSpec(lines).Some? ==>
      SimulationResult(ParseSpec(lines).value.0, ParseSpec(lines).value.1, numTimes, true, fuel, r)
  {
    var parsed := ParseLines(lines);
    if parsed.None? {
      return None;
    }
    var (modules, senders) := parsed.value;
    r := SimulatePulses(modules, senders, numTimes, true, fuel);
  }
}
