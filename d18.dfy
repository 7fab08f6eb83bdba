/**
 * Day 18: the lavaduct lagoon. A dig plan moves a digger up, down, left or
 * right by a distance per line; the lagoon is the dug-out boundary plus
 * everything inside it. The area of the trench polygon comes from the
 * shoelace formula and the interior point count from Pick's theorem.
 * Part 2 reads the real distance and direction from the hex colour code.
 *
 * Coordinates are (row, column): Up and Down change the row, Left and
 * Right the column.
 */
module D18 {
  import opened Wrappers
  import opened Text
  import opened Arith

  datatype Direction = Up | Down | Left | Right

  datatype Dig = Dig(direction: Direction, distance: int, color: string)

  // ---------------------------------------------------------------------
  // Parsing
  // ---------------------------------------------------------------------

  /** The direction letters; anything else is a panic. */
  function DirectionOf(s: string): (r: Option<Direction>)
    ensures r.Some? <==> s == "U" || s == "D" || s == "L" || s == "R"
    ensures r == Some(Up) <==> s == "U"
    ensures r == Some(Down) <==> s == "D"
    ensures r == Some(Left) <==> s == "L"
    ensures r == Some(Right) <==> s == "R"
  {
    if s == "U" then Some(Up)
    else if s == "D" then Some(Down)
    else if s == "L" then Some(Left)
    else if s == "R" then Some(Right)
    else None
  }

  /** `strip_prefix('(')` then `strip_suffix(')')`; a missing parenthesis is a panic. */
  function StripParens(s: string): (r: Option<string>)
    ensures r.Some? <==> |s| >= 2 && s[0] == '(' && s[|s| - 1] == ')'
    ensures r.Some? ==> "(" + r.value + ")" == s
  {
    if |s| >= 2 && s[0] == '(' && s[|s| - 1] == ')' then Some(s[1..|s| - 1]) else None
  }

  /** The last hex digit of a colour code: 0/1/2/3 are R/D/L/U; anything else is a panic. */
  function HexDirection(c: char): (r: Option<Direction>)
    ensures r.Some? <==> '0' <= c <= '3'
  {
    match c
    case '0' => Some(Right)
    case '1' => Some(Down)
    case '2' => Some(Left)
    case '3' => Some(Up)
    case _ => None
  }

  /**
   * The hex mode: the colour minus its first and last characters is the
   * distance in hex, its last character the direction. A colour shorter
   * than two characters makes the slice panic.
   */
  function HexDig(color: string): (r: Option<Dig>)
    ensures r.Some? <==> |color| >= 2 && ParseHex(color[1..|color| - 1]).Some? && HexDirection(color[|color| - 1]).Some?
    ensures r.Some? ==> r.value.color == color
  {
    if |color| < 2 then None
    else match (ParseHex(color[1..|color| - 1]), HexDirection(color[|color| - 1]))
      case (Some(d), Some(dir)) => Some(Dig(dir, d, color))
      case _ => None
  }

  /**
   * One line "D n (#rrggbb)": a direction letter, a decimal distance and a
   * parenthesised colour, whatever else follows. In hex mode the letter and
   * the distance must still parse, but the colour decides the dig.
   */
  function ParseDig(line: string, convertHex: bool): (r: Option<Dig>)
    ensures var t := SplitWhitespace(line);
      r.Some? <==> (|t| >= 3 && DirectionOf(t[0]).Some? && ParseInt(t[1]).Some? && StripParens(t[2]).Some? &&
                    (convertHex ==> HexDig(StripParens(t[2]).value).Some?))
    ensures r.Some? ==> "(" + r.value.color + ")" == SplitWhitespace(line)[2]
    ensures r.Some? ==> DirectionOf(SplitWhitespace(line)[0]).Some? && ParseInt(SplitWhitespace(line)[1]).Some?
    ensures r.Some? && !convertHex ==>
      Some(r.value.direction) == DirectionOf(SplitWhitespace(line)[0]) && Some(r.value.distance) == ParseInt(SplitWhitespace(line)[1])
    ensures r.Some? && convertHex ==> r == HexDig(r.value.color)
  {
    var tokens := SplitWhitespace(line);
    if |tokens| < 3 then None
    else match (DirectionOf(tokens[0]), ParseInt(tokens[1]), StripParens(tokens[2]))
      case (Some(direction), Some(distance), Some(color)) =>
        if convertHex then HexDig(color) else Some(Dig(direction, distance, color))
      case _ => None
  }

  /** Hex mode keeps a line's colour and fails exactly when its colour is not a valid code. */
  lemma HexModeOfPlainDig(line: string)
    requires ParseDig(line, false).Some?
    ensures ParseDig(line, true) == HexDig(ParseDig(line, false).value.color)
  {
  }

  /** The colour "#70c710" means 0x70c71 = 461937 to the right. */
  lemma HexExample()
    ensures HexDig("#70c710") == Some(Dig(Right, 461937, "#70c710"))
  {
    var body := "#70c710"[1..6];
    assert body == "70c71";
    assert body[..4] == "70c7" && body[..4][..3] == "70c" && body[..4][..3][..2] == "70" && body[..4][..3][..2][..1] == "7";
    assert HexDigitsValue("7") == 7;
    assert HexDigitsValue("70") == 112;
    assert HexDigitsValue("70c") == 1804;
    assert HexDigitsValue("70c7") == 28871;
    assert HexDigitsValue(body) == 461937;
  }

  /** `parse_lines`: one dig per line, in order; any bad line is a panic. */
  function ParsePlan(lines: seq<string>, convertHex: bool): (r: Option<seq<Dig>>)
    ensures r.None? <==> exists i :: 0 <= i < |lines| && ParseDig(lines[i], convertHex).None?
    ensures r.Some? ==> |r.value| == |lines| && forall i :: 0 <= i < |lines| ==> ParseDig(lines[i], convertHex) == Some(r.value[i])
  {
    MapAll(l => ParseDig(l, convertHex), lines)
  }

  /** The source's loop over the lines. */
  method ParseLines(lines: seq<string>, convertHex: bool) returns (r: Option<seq<Dig>>)
    ensures r == ParsePlan(lines, convertHex)
  {
    var digs: seq<Dig> := [];
    for k := 0 to |lines|
      invariant ParsePlan(lines[..k], convertHex) == Some(digs)
    {
      MapAllSnoc(l => ParseDig(l, convertHex), lines, k);
      var d := ParseDig(lines[k], convertHex);
      if d.None? {
        ParsePlanFails(lines, k, convertHex);
        return None;
      }
      digs := digs + [d.value];
    }
    assert lines[..|lines|] == lines;
    return Some(digs);
  }

  lemma ParsePlanFails(lines: seq<string>, k: nat, convertHex: bool)
    requires k < |lines| && ParseDig(lines[k], convertHex).None?
    ensures ParsePlan(lines, convertHex) == None
  {
  }

  // ---------------------------------------------------------------------
  // The trench polygon
  // ---------------------------------------------------------------------

  /** Where one dig takes the digger. */
  function Move(p: (int, int), dir: Direction, d: int): (int, int)
  {
    match dir
    case Up => (p.0 - d, p.1)
    case Down => (p.0 + d, p.1)
    case Left => (p.0, p.1 - d)
    case Right => (p.0, p.1 + d)
  }

  function Opposite(dir: Direction): (r: Direction)
    ensures r != dir
  {
    match dir
    case Up => Down
    case Down => Up
    case Left => Right
    case Right => Left
  }

  /** Digging back the same distance the other way returns to the start; a dig covers |d| cells in a line. */
  lemma MoveOpposite(p: (int, int), dir: Direction, d: int)
    ensures Move(Move(p, dir, d), Opposite(dir), d) == p
    ensures Abs(Move(p, dir, d).0 - p.0) + Abs(Move(p, dir, d).1 - p.1) == Abs(d)
    ensures Move(p, dir, d).0 == p.0 || Move(p, dir, d).1 == p.1
  {
  }

  /** The digger's position after the first n digs, starting at (0, 0). */
  function Position(digs: seq<Dig>, n: nat): (int, int)
    requires n <= |digs|
  {
    if n == 0 then (0, 0) else Move(Position(digs, n - 1), digs[n - 1].direction, digs[n - 1].distance)
  }

  /** One shoelace term x1*y2 - x2*y1. */
  function Cross(p: (int, int), q: (int, int)): int
  {
    p.0 * q.1 - q.0 * p.1
  }

  /** The shoelace terms of the first n digs: twice the signed area once the trench closes. */
  function Shoelace(digs: seq<Dig>, n: nat): int
    requires n <= |digs|
  {
    if n == 0 then 0 else Shoelace(digs, n - 1) + Cross(Position(digs, n - 1), Position(digs, n))
  }

  /** The trench cells: the sum of the distances. */
  function Boundary(digs: seq<Dig>, n: nat): int
    requires n <= |digs|
  {
    if n == 0 then 0 else Boundary(digs, n - 1) + digs[n - 1].distance
  }

  /** Pick's theorem: interior points |A| - b/2 + 1, plus the b boundary points. */
  function Lagoon(digs: seq<Dig>): int
  {
    var area := Half(Shoelace(digs, |digs|));
    var b := Boundary(digs, |digs|);
    Abs(area) - Half(b) + 1 + b
  }

  /** `process_dig_plan`: walk the trench, accumulating shoelace terms and boundary cells. */
  method ProcessDigPlan(digs: seq<Dig>) returns (r: int)
    ensures r == Lagoon(digs)
  {
    var x1, y1 := 0, 0;
    var area := 0;
    var numBoundaryPts := 0;
    for k := 0 to |digs|
      invariant (x1, y1) == Position(digs, k)
      invariant area == Shoelace(digs, k)
      invariant numBoundaryPts == Boundary(digs, k)
    {
      var dig := digs[k];
      var x2, y2;
      match dig.direction {
        case Up => x2, y2 := x1 - dig.distance, y1;
        case Down => x2, y2 := x1 + dig.distance, y1;
        case Left => x2, y2 := x1, y1 - dig.distance;
        case Right => x2, y2 := x1, y1 + dig.distance;
      }
      area := area + (x1 * y2 - x2 * y1);
      numBoundaryPts := numBoundaryPts + dig.distance;
      x1, y1 := x2, y2;
    }
    area := Half(area);
    var numInteriorPts := Abs(area) - Half(numBoundaryPts) + 1;
    r := numInteriorPts + numBoundaryPts;
  }

  /**
   * Sum of x * dy over the sideways digs; on a rectilinear trench the
   * shoelace terms are x * dy for sideways digs and -y * dx for vertical ones.
   */
  function SidewaysSum(digs: seq<Dig>, n: nat): int
    requires n <= |digs|
  {
    if n == 0 then 0
    else
      var p := Position(digs, n - 1);
      var q := Position(digs, n);
      SidewaysSum(digs, n - 1) + (if digs[n - 1].direction in {Left, Right} then p.0 * (q.1 - p.1) else 0)
  }

  /** One dig's shoelace term against the change of the product of the coordinates. */
  lemma CrossStep(x: int, y: int, dir: Direction, d: int)
    ensures var q := Move((x, y), dir, d);
      Cross((x, y), q) + q.0 * q.1 - x * y == 2 * (if dir in {Left, Right} then x * (q.1 - y) else 0)
  {
    match dir {
      case Up =>
        assert (x - d) * y == x * y - d * y;
      case Down =>
        assert (x + d) * y == x * y + d * y;
      case Left =>
        assert x * (y - d) == x * y - x * d;
      case Right =>
        assert x * (y + d) == x * y + x * d;
    }
  }

  /** The shoelace sum is twice the sideways sum, less the product of the end coordinates. */
  lemma {:induction false} ShoelaceBySideways(digs: seq<Dig>, n: nat)
    requires n <= |digs|
    ensures Shoelace(digs, n) == 2 * SidewaysSum(digs, n) - Position(digs, n).0 * Position(digs, n).1
  {
    if n > 0 {
      ShoelaceBySideways(digs, n - 1);
      var p := Position(digs, n - 1);
      CrossStep(p.0, p.1, digs[n - 1].direction, digs[n - 1].distance);
    }
  }

  /** A closed trench has an even shoelace sum, so halving it loses nothing. */
  lemma ClosedShoelaceEven(digs: seq<Dig>)
    requires Position(digs, |digs|) == (0, 0)
    ensures Shoelace(digs, |digs|) % 2 == 0
    ensures 2 * Half(Shoelace(digs, |digs|)) == Shoelace(digs, |digs|)
  {
    ShoelaceBySideways(digs, |digs|);
  }

  /** An a-by-b rectangle dug clockwise: the lagoon is its (a+1)(b+1) cells. */
  lemma RectangleLagoon(a: nat, b: nat, c: string)
    ensures Lagoon([Dig(Right, a, c), Dig(Down, b, c), Dig(Left, a, c), Dig(Up, b, c)]) == (a + 1) * (b + 1)
  {
    var digs := [Dig(Right, a, c), Dig(Down, b, c), Dig(Left, a, c), Dig(Up, b, c)];
    assert Position(digs, 1) == (0, a);
    assert Position(digs, 2) == (b, a);
    assert Position(digs, 3) == (b, 0);
    assert Position(digs, 4) == (0, 0);
    assert Cross((0, a), (b, a)) == -(a * b);
    assert Cross((b, a), (b, 0)) == -(a * b);
    assert Shoelace(digs, 1) == 0;
    assert Shoelace(digs, 2) == -(a * b);
    assert Shoelace(digs, 3) == -2 * (a * b);
    assert Shoelace(digs, 4) == -2 * (a * b);
    assert Half(-2 * (a * b)) == -(a * b);
    assert Boundary(digs, 1) == a;
    assert Boundary(digs, 2) == a + b;
    assert Boundary(digs, 3) == 2 * a + b;
    assert Boundary(digs, 4) == 2 * a + 2 * b;
    assert Half(2 * a + 2 * b) == a + b;
  }

  /** Part 1: the lagoon for the letter-and-decimal plan; None when a line does not parse. */
  method P1(lines: seq<string>) returns (r: Option<int>)
    ensures r.None? <==> ParsePlan(lines, false).None?
    ensures r.Some? ==> r.value == Lagoon(ParsePlan(lines, false).value)
  {
    var plan := ParseLines(lines, false);
    if plan.None? {
      return None;
    }
    var v := ProcessDigPlan(plan.value);
    return Some(v);
  }

  /** Part 2: the lagoon for the plan read from the colour codes. */
  method P2(lines: seq<string>) returns (r: Option<int>)
    ensures r.None? <==> ParsePlan(lines, true).None?
    ensures r.Some? ==> r.value == Lagoon(ParsePlan(lines, true).value)
  {
    var plan := ParseLines(lines, true);
    if plan.None? {
      return None;
    }
    var v := ProcessDigPlan(plan.value);
    return Some(v);
  }
}
