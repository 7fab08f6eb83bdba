/**
 * Day 15: the HASH function and the HASHMAP procedure, a table of 256
 * boxes, each an ordered list of labelled lenses.
 */
module D15 {
  import opened Wrappers
  import opened Text

  // ---------------------------------------------------------------------
  // HASH
  // ---------------------------------------------------------------------

  /** HASH of a string: for each character, `h := ((h + code) * 17) % 256`. */
  function HashOf(s: string): (h: nat)
    ensures h < 256
  {
    if s == [] then 0 else ((HashOf(s[..|s| - 1]) + s[|s| - 1] as int) * 17) % 256
  }

  /** The same recurrence without the reduction: an independent reference for HASH. */
  function HashUnreduced(s: string): nat
  {
    if s == [] then 0 else (HashUnreduced(s[..|s| - 1]) + s[|s| - 1] as int) * 17
  }

  lemma ModStep(a: int, c: int)
    ensures ((a % 256 + c) * 17) % 256 == ((a + c) * 17) % 256
  {
    var q := a / 256;
    assert a == 256 * q + a % 256;
    assert (a + c) * 17 == (a % 256 + c) * 17 + 256 * (17 * q);
  }

  /** Reducing modulo 256 after every character is the same as reducing once at the end. */
  lemma {:induction false} HashIsUnreducedMod(s: string)
    ensures HashOf(s) == HashUnreduced(s) % 256
  {
    if s != [] {
      var init := s[..|s| - 1];
      HashIsUnreducedMod(init);
      ModStep(HashUnreduced(init), s[|s| - 1] as int);
    }
  }

  /** The source's accumulator loop. */
  method Hash(s: string) returns (h: nat)
    ensures h == HashOf(s) && h < 256
  {
    h := 0;
    for i := 0 to |s|
      invariant h == HashOf(s[..i])
    {
      assert s[..i + 1][..i] == s[..i];
      h := ((h + s[i] as int) * 17) % 256;
    }
    assert s[..|s|] == s;
  }

  /** Splits the first line at ','; an empty input is a panic. */
  function ParseSteps(lines: seq<string>): (r: Option<seq<string>>)
    ensures r.None? <==> lines == []
    ensures r.Some? ==> |r.value| >= 1 && forall i :: 0 <= i < |r.value| ==> ',' !in r.value[i]
  {
    if lines == [] then None else Some(Split(lines[0], ','))
  }

  function SumHashes(steps: seq<string>): (r: nat)
    ensures r < 256 * |steps| || steps == []
  {
    if steps == [] then 0 else SumHashes(steps[..|steps| - 1]) + HashOf(steps[|steps| - 1])
  }

  /** Part 1: the sum of the hashes of the steps. */
  method P1(lines: seq<string>) returns (r: Option<nat>)
    ensures lines == [] ==> r.None?
    ensures lines != [] ==> r == Some(SumHashes(Split(lines[0], ',')))
  {
    var steps := ParseSteps(lines);
    if steps.None? {
      return None;
    }
    var total := 0;
    for i := 0 to |steps.value|
      invariant total == SumHashes(steps.value[..i])
    {
      assert steps.value[..i + 1][..i] == steps.value[..i];
      var h := Hash(steps.value[i]);
      total := total + h;
    }
    assert steps.value[..|steps.value|] == steps.value;
    return Some(total);
  }

  // ---------------------------------------------------------------------
  // Operations
  // ---------------------------------------------------------------------

  datatype Op = Add(name: string, value: string) | Remove(name: string)

  /**
   * A step ending in '-' removes the name before it; any other step is
   * `name=value`, and a step without '=' is a panic.
   */
  function ParseOp(s: string): (r: Option<Op>)
    ensures |s| > 0 && s[|s| - 1] == '-' ==> r == Some(Remove(s[..|s| - 1]))
    ensures (|s| == 0 || s[|s| - 1] != '-') ==> (r.None? <==> '=' !in s)
    ensures r.Some? && r.value.Add? ==> '=' !in r.value.name && '=' !in r.value.value && |r.value.name| < |s|
  {
    if |s| > 0 && s[|s| - 1] == '-' then Some(Remove(s[..|s| - 1]))
    else
      var parts := Split(s, '=');
      if |parts| < 2 then None
      else
        SplitShorter(s, '=');
        Some(Add(parts[0], parts[1]))
  }

  /** The first piece of a split at a separator that occurs is shorter than the string. */
  lemma SplitShorter(s: string, sep: char)
    requires sep in s
    ensures |Split(s, sep)[0]| < |s|
  {
    var i := IndexOf(s, sep);
    SplitFirst(s[..i], sep, s[i + 1..]);
    assert s == s[..i] + [sep] + s[i + 1..];
  }

  function OpsOf(steps: seq<string>): (r: Option<seq<Op>>)
    ensures r.None? <==> exists i :: 0 <= i < |steps| && ParseOp(steps[i]).None?
    ensures r.Some? ==> |r.value| == |steps| && forall i :: 0 <= i < |steps| ==> ParseOp(steps[i]) == Some(r.value[i])
  {
    if steps == [] then Some([])
    else
      var init := steps[..|steps| - 1];
      assert forall i :: 0 <= i < |init| ==> init[i] == steps[i];
      match OpsOf(init)
      case None => None
      case Some(ops) =>
        match ParseOp(steps[|steps| - 1])
        case None => None
        case Some(op) => Some(ops + [op])
  }

  /** The source's loop over the steps. */
  method GetOps(steps: seq<string>) returns (r: Option<seq<Op>>)
    ensures r == OpsOf(steps)
  {
    var ops: seq<Op> := [];
    for i := 0 to |steps|
      invariant OpsOf(steps[..i]) == Some(ops)
    {
      assert steps[..i + 1][..i] == steps[..i];
      var op := ParseOp(steps[i]);
      if op.None? {
        assert OpsOf(steps[..i + 1]).None?;
        OpsOfFails(steps, i + 1);
        return None;
      }
      ops := ops + [op.value];
    }
    assert steps[..|steps|] == steps;
    return Some(ops);
  }

  lemma OpsOfFails(steps: seq<string>, i: nat)
    requires 0 < i <= |steps| && OpsOf(steps[..i]).None?
    ensures OpsOf(steps).None?
  {
    var k :| 0 <= k < i && ParseOp(steps[..i][k]).None?;
    assert steps[..i][k] == steps[k];
  }

  // ---------------------------------------------------------------------
  // Boxes
  // ---------------------------------------------------------------------

  datatype Lens = Lens(name: string, length: string)
  type Box = seq<Lens>

  predicate HasLabel(b: Box, name: string)
  {
    exists j :: 0 <= j < |b| && b[j].name == name
  }

  /** No name occurs twice in a box. */
  predicate UniqueLabels(b: Box)
  {
    forall i, j :: 0 <= i < j < |b| ==> b[i].name != b[j].name
  }

  /** `position`: the first slot holding `name`. */
  function Position(b: Box, name: string): (r: Option<nat>)
    ensures r.None? <==> !HasLabel(b, name)
    ensures r.Some? ==> r.value < |b| && b[r.value].name == name
    ensures r.Some? ==> forall j :: 0 <= j < r.value ==> b[j].name != name
  {
    if b == [] then None
    else if b[0].name == name then Some(0)
    else match Position(b[1..], name)
      case None => None
      case Some(j) => Some(j + 1)
  }

  /** ADD: replace the lens with that name in place, or append a new one at the end. */
  function Upsert(b: Box, lens: Lens): (r: Box)
    ensures HasLabel(b, lens.name) ==> |r| == |b|
    ensures HasLabel(b, lens.name) ==>
      forall j :: 0 <= j < |b| ==> r[j] == if j == Position(b, lens.name).value then lens else b[j]
    ensures !HasLabel(b, lens.name) ==> r == b + [lens]
    ensures UniqueLabels(b) ==> UniqueLabels(r)
  {
    match Position(b, lens.name)
    case Some(j) => b[j := lens]
    case None => b + [lens]
  }

  /** REMOVE: `retain` the lenses with other labels, in order. */
  function RemoveLabel(b: Box, name: string): (r: Box)
    ensures |r| <= |b|
    ensures !HasLabel(r, name)
    ensures forall j :: 0 <= j < |b| && b[j].name != name ==> b[j] in r
    ensures forall j :: 0 <= j < |r| ==> r[j] in b
    ensures !HasLabel(b, name) ==> r == b
    ensures UniqueLabels(b) ==> UniqueLabels(r)
  {
    if b == [] then []
    else if b[0].name == name then RemoveLabel(b[1..], name)
    else [b[0]] + RemoveLabel(b[1..], name)
  }

  /**
   * Removing keeps the remaining lenses in their order: it distributes over
   * concatenation, dropping exactly the lenses with that name.
   */
  lemma {:induction false} RemoveKeepsOrder(b1: Box, b2: Box, name: string)
    ensures RemoveLabel(b1 + b2, name) == RemoveLabel(b1, name) + RemoveLabel(b2, name)
  {
    if b1 == [] {
      assert b1 + b2 == b2;
    } else {
      assert (b1 + b2)[1..] == b1[1..] + b2;
      RemoveKeepsOrder(b1[1..], b2, name);
    }
  }

  /** One operation on the table of boxes: only box `HASH(name)` changes. */
  function Apply(boxes: seq<Box>, op: Op): (r: seq<Box>)
    requires |boxes| == 256
    ensures |r| == 256
    ensures forall i :: 0 <= i < 256 && i != HashOf(op.name) ==> r[i] == boxes[i]
    ensures op.Add? ==> r[HashOf(op.name)] == Upsert(boxes[HashOf(op.name)], Lens(op.name, op.value))
    ensures op.Remove? ==> r[HashOf(op.name)] == RemoveLabel(boxes[HashOf(op.name)], op.name)
  {
    var h := HashOf(op.name);
    match op
    case Add(name, value) => boxes[h := Upsert(boxes[h], Lens(name, value))]
    case Remove(name) => boxes[h := RemoveLabel(boxes[h], name)]
  }

  function ApplyAll(ops: seq<Op>): (r: seq<Box>)
    ensures |r| == 256
  {
    if ops == [] then seq(256, _ => []) else Apply(ApplyAll(ops[..|ops| - 1]), ops[|ops| - 1])
  }

  /** Every lens sits in the box of its name's hash, and labels are unique in each box. */
  ghost predicate WellPlaced(boxes: seq<Box>)
  {
    |boxes| == 256
    && (forall i :: 0 <= i < 256 ==> UniqueLabels(boxes[i]))
    && forall i, j :: 0 <= i < 256 && 0 <= j < |boxes[i]| ==> HashOf(boxes[i][j].name) == i
  }

  /** The table stays well placed under every sequence of operations. */
  lemma {:induction false} ApplyAllWellPlaced(ops: seq<Op>)
    ensures WellPlaced(ApplyAll(ops))
  {
    if ops != [] {
      ApplyAllWellPlaced(ops[..|ops| - 1]);
      var before := ApplyAll(ops[..|ops| - 1]);
      var op := ops[|ops| - 1];
      var h := HashOf(op.name);
      var after: seq<Box> := Apply(before, op);
      forall j | 0 <= j < |after[h]| ensures HashOf(after[h][j].name) == h {
        if op.Add? && HasLabel(before[h], op.name) {
          if j != Position(before[h], op.name).value {
            assert after[h][j] == before[h][j];
          }
        } else if op.Add? {
          if j < |before[h]| {
            assert after[h][j] == before[h][j];
          }
        } else {
          assert after[h][j] in before[h];
        }
      }
    }
  }

  /** The source's loop over the operations, on a 256-element array of boxes. */
  method PerformOps(ops: seq<Op>) returns (boxes: array<Box>)
    ensures fresh(boxes) && boxes.Length == 256 && boxes[..] == ApplyAll(ops)
  {
    boxes := new Box[256](_ => []);
    assert boxes[..] == ApplyAll([]);
    for k := 0 to |ops|
      invariant boxes[..] == ApplyAll(ops[..k])
    {
      assert ops[..k + 1][..k] == ops[..k];
      var op := ops[k];
      var h := Hash(op.name);
      match op {
        case Add(name, value) =>
          boxes[h] := Upsert(boxes[h], Lens(name, value));
        case Remove(name) =>
          boxes[h] := RemoveLabel(boxes[h], name);
      }
    }
    assert ops[..|ops|] == ops;
  }

  // ---------------------------------------------------------------------
  // Focusing power
  // ---------------------------------------------------------------------

  function Term(a: nat, b: nat, c: nat): nat
  {
    a * b * c
  }

  /** Σ (box + 1)(slot + 1)·length over the first `k` slots of box `i`; an unparsable length is a panic. */
  function BoxPower(b: Box, i: nat, k: nat): Option<nat>
    requires k <= |b|
  {
    if k == 0 then Some(0)
    else match (BoxPower(b, i, k - 1), ParseNat(b[k - 1].length))
      case (Some(s), Some(l)) => Some(s + Term(i + 1, k, l))
      case _ => None
  }

  /** Σ over the first `n` boxes. */
  function Power(boxes: seq<Box>, n: nat): Option<nat>
    requires n <= |boxes|
  {
    if n == 0 then Some(0)
    else match (Power(boxes, n - 1), BoxPower(boxes[n - 1], n - 1, |boxes[n - 1]|))
      case (Some(s), Some(t)) => Some(s + t)
      case _ => None
  }

  /** Every lens contributes its own term: the box sum is at least (i+1)(j+1)·length. */
  lemma {:induction false} BoxPowerCounts(b: Box, i: nat, k: nat, j: nat)
    requires j < k <= |b| && BoxPower(b, i, k).Some?
    ensures ParseNat(b[j].length).Some?
    ensures BoxPower(b, i, k).value >= (i + 1) * (j + 1) * ParseNat(b[j].length).value
  {
    if j < k - 1 {
      BoxPowerCounts(b, i, k - 1, j);
    }
  }

  /** Every lens contributes its own term to the total. */
  lemma {:induction false} PowerCounts(boxes: seq<Box>, n: nat, i: nat, j: nat)
    requires i < n <= |boxes| && j < |boxes[i]| && Power(boxes, n).Some?
    ensures ParseNat(boxes[i][j].length).Some?
    ensures Power(boxes, n).value >= (i + 1) * (j + 1) * ParseNat(boxes[i][j].length).value
  {
    if i < n - 1 {
      PowerCounts(boxes, n - 1, i, j);
    } else {
      BoxPowerCounts(boxes[i], i, |boxes[i]|, j);
    }
  }

  /** Part 2: parse the steps, run them, and sum the focusing power. */
  method P2(lines: seq<string>) returns (r: Option<nat>)
    ensures lines == [] ==> r.None?
    ensures lines != [] ==> r == match OpsOf(Split(lines[0], ','))
      case None => None
      case Some(ops) => Power(ApplyAll(ops), 256)
  {
    var steps := ParseSteps(lines);
    if steps.None? {
      return None;
    }
    var ops := GetOps(steps.value);
    if ops.None? {
      return None;
    }
    var boxes := PerformOps(ops.value);
    r := Power(boxes[..], 256);
  }
}
