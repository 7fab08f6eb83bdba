/**
 * Day 14: the parabolic reflector dish. Round rocks 'O' roll on a platform
 * of fixed cube rocks '#'. Positions are (row, column), both 1-based, rows
 * counted from the bottom, so rolling north increases the row. A tilt rolls
 * every round rock as far as it goes in one direction; a spin cycle tilts
 * north, west, south and east. The load is the sum of the rows of the round
 * rocks.
 */
module D14 {
  import opened Wrappers
  import opened Text
  import Arith

  type Pos = (nat, nat)

  /** The four tilts: (1, 0), (0, -1), (-1, 0) and (0, 1) as (row, column) steps. */
  datatype Dir = North | West | South | East

  /** `parse_lines`' result: height, width, the round rocks and the cube rocks. */
  datatype Platform = Platform(m: nat, n: nat, rounded: set<Pos>, cube: set<Pos>)

  // ---------------------------------------------------------------------
  // Parsing
  // ---------------------------------------------------------------------

  predicate IsCell(c: char)
  {
    c == 'O' || c == '#' || c == '.'
  }

  predicate ValidRow(line: string)
  {
    forall j :: 0 <= j < |line| ==> IsCell(line[j])
  }

  predicate ValidLines(lines: seq<string>)
  {
    forall p :: 0 <= p < |lines| ==> ValidRow(lines[p])
  }

  /** The character ch is at x, the bottom line being row 1. */
  predicate HasAt(lines: seq<string>, x: Pos, ch: char)
  {
    1 <= x.0 <= |lines| && 1 <= x.1 <= |lines[|lines| - x.0]| && lines[|lines| - x.0][x.1 - 1] == ch
  }

  /** The platform read from the lines. */
  ghost predicate ParsedAs(lines: seq<string>, pl: Platform)
  {
    && lines != []
    && pl.m == |lines| && pl.n == |lines[0]|
    && (forall x :: x in pl.rounded <==> HasAt(lines, x, 'O'))
    && (forall x :: x in pl.cube <==> HasAt(lines, x, '#'))
  }

  /** The lines determine the platform, and no cell holds both kinds of rock. */
  lemma ParsedUnique(lines: seq<string>, p1: Platform, p2: Platform)
    requires ParsedAs(lines, p1) && ParsedAs(lines, p2)
    ensures p1 == p2 && p1.rounded !! p1.cube
  {
    assert p1.rounded == p2.rounded;
    assert p1.cube == p2.cube;
  }

  /** The inner loop of `parse_lines`: one line, as row `row`. */
  method ParseRow(line: string, row: nat, rounded: set<Pos>, cube: set<Pos>) returns (ok: bool, rounded': set<Pos>, cube': set<Pos>)
    ensures ok <==> ValidRow(line)
    ensures ok ==> forall x :: x in rounded' <==> x in rounded || (x.0 == row && 1 <= x.1 <= |line| && line[x.1 - 1] == 'O')
    ensures ok ==> forall x :: x in cube' <==> x in cube || (x.0 == row && 1 <= x.1 <= |line| && line[x.1 - 1] == '#')
  {
    rounded', cube' := rounded, cube;
    for j := 0 to |line|
      invariant forall k :: 0 <= k < j ==> IsCell(line[k])
      invariant forall x :: x in rounded' <==> x in rounded || (x.0 == row && 1 <= x.1 <= j && line[x.1 - 1] == 'O')
      invariant forall x :: x in cube' <==> x in cube || (x.0 == row && 1 <= x.1 <= j && line[x.1 - 1] == '#')
    {
      var c := line[j];
      if c == 'O' {
        rounded' := rounded' + {(row, j + 1)};
      } else if c == '#' {
        cube' := cube' + {(row, j + 1)};
      } else if c != '.' {
        return false, rounded', cube';
      }
    }
    ok := true;
  }

  /** `parse_lines`: panics on no lines or on a character other than 'O', '#' and '.'. */
  method ParseLines(lines: seq<string>) returns (r: Option<Platform>)
    ensures r.Some? <==> lines != [] && ValidLines(lines)
    ensures r.Some? ==> ParsedAs(lines, r.value)
  {
    if lines == [] {
      return None;
    }
    var m := |lines|;
    var rounded: set<Pos> := {};
    var cube: set<Pos> := {};
    for i := 0 to m
      invariant forall p :: m - i <= p < m ==> ValidRow(lines[p])
      invariant forall x: Pos :: x in rounded <==> HasAt(lines, x, 'O') && x.0 <= i
      invariant forall x: Pos :: x in cube <==> HasAt(lines, x, '#') && x.0 <= i
    {
      var ok;
      ok, rounded, cube := ParseRow(lines[m - 1 - i], i + 1, rounded, cube);
      if !ok {
        return None;
      }
    }
    r := Some(Platform(m, |lines[0]|, rounded, cube));
  }

  // ---------------------------------------------------------------------
  // Orders on positions
  // ---------------------------------------------------------------------

  /** How far toward the edge a rock is when tilting in d. */
  function Key(p: Pos, d: Dir): int
  {
    match d
    case North => p.0
    case South => -(p.0 as int)
    case East => p.1
    case West => -(p.1 as int)
  }

  /** The line a rock rolls along when tilting in d. */
  function Lane(p: Pos, d: Dir): nat
  {
    match d
    case North => p.1
    case South => p.1
    case East => p.0
    case West => p.0
  }

  /** ByPos: the tuple order of `rounded_to_string`; ByTilt: nearest the edge first, as `move_rocks_to_dir` sorts. */
  datatype Order = ByPos | ByTilt(d: Dir)

  function View(p: Pos, o: Order): (int, int)
  {
    match o
    case ByPos => (p.0, p.1)
    case ByTilt(d) => (-Key(p, d), Lane(p, d))
  }

  predicate Before(p: Pos, q: Pos, o: Order)
  {
    var a, b := View(p, o), View(q, o);
    a.0 < b.0 || (a.0 == b.0 && a.1 <= b.1)
  }

  predicate IsLeast(x: Pos, s: set<Pos>, o: Order)
  {
    x in s && forall y :: y in s ==> Before(x, y, o)
  }

  lemma {:induction false} LeastExists(s: set<Pos>, o: Order)
    requires s != {}
    ensures exists x :: IsLeast(x, s, o)
    decreases |s|
  {
    var y :| y in s;
    if s - {y} == {} {
      assert s == {y};
      assert IsLeast(y, s, o);
    } else {
      LeastExists(s - {y}, o);
      var z :| IsLeast(z, s - {y}, o);
      var w := if Before(y, z, o) then y else z;
      forall v | v in s
        ensures Before(w, v, o)
      {
        if v != y {
          assert v in s - {y};
        }
      }
      assert IsLeast(w, s, o);
    }
  }

  /** The first position of a non-empty set in the order o. */
  function Least(s: set<Pos>, o: Order): (x: Pos)
    requires s != {}
    ensures IsLeast(x, s, o)
  {
    LeastExists(s, o);
    var x :| IsLeast(x, s, o);
    x
  }

  /** The positions of s in the order o: the source's collect-and-sort. */
  function Enumerate(s: set<Pos>, o: Order): seq<Pos>
    decreases |s|
  {
    if s == {} then []
    else
      var x := Least(s, o);
      [x] + Enumerate(s - {x}, o)
  }

  /** Enumerate lists every position of the set once, in the order o. */
  lemma {:induction false} EnumerateFacts(s: set<Pos>, o: Order)
    ensures |Enumerate(s, o)| == |s|
    ensures forall x :: x in Enumerate(s, o) <==> x in s
    ensures forall i, j :: 0 <= i < j < |Enumerate(s, o)| ==> Before(Enumerate(s, o)[i], Enumerate(s, o)[j], o) && Enumerate(s, o)[i] != Enumerate(s, o)[j]
    decreases |s|
  {
    if s != {} {
      var x := Least(s, o);
      EnumerateFacts(s - {x}, o);
    }
  }

  // ---------------------------------------------------------------------
  // Tilting
  // ---------------------------------------------------------------------

  predicate InBox(m: nat, n: nat, p: Pos)
  {
    1 <= p.0 <= m && 1 <= p.1 <= n
  }

  /** The `while` condition: the rock is not yet at the edge it rolls toward. */
  predicate CanMove(m: nat, n: nat, p: Pos, d: Dir)
  {
    match d
    case North => p.0 < m
    case South => p.0 > 1
    case East => p.1 < n
    case West => p.1 > 1
  }

  function Next(m: nat, n: nat, p: Pos, d: Dir): Pos
    requires CanMove(m, n, p, d)
  {
    match d
    case North => (p.0 + 1, p.1)
    case South => (p.0 - 1, p.1)
    case East => (p.0, p.1 + 1)
    case West => (p.0, p.1 - 1)
  }

  /** The distance to the edge the rock rolls toward. */
  function Room(m: nat, n: nat, p: Pos, d: Dir): nat
  {
    match d
    case North => if p.0 < m then m - p.0 else 0
    case South => if p.0 > 1 then p.0 - 1 else 0
    case East => if p.1 < n then n - p.1 else 0
    case West => if p.1 > 1 then p.1 - 1 else 0
  }

  /** Where one rock stops when the others already placed stay put. */
  function Slide(m: nat, n: nat, cube: set<Pos>, placed: set<Pos>, p: Pos, d: Dir): Pos
    decreases Room(m, n, p, d)
  {
    if CanMove(m, n, p, d) && Next(m, n, p, d) !in cube && Next(m, n, p, d) !in placed then
      Slide(m, n, cube, placed, Next(m, n, p, d), d)
    else p
  }

  /**
   * A rolling rock stays in its lane, only moves toward the edge, ends on no
   * cube and no placed rock when it started on none, stays on the platform,
   * and is stopped by the edge, a cube or a placed rock.
   */
  lemma {:induction false} SlideFacts(m: nat, n: nat, cube: set<Pos>, placed: set<Pos>, p: Pos, d: Dir)
    ensures var r := Slide(m, n, cube, placed, p, d);
      && Lane(r, d) == Lane(p, d)
      && (r == p || Key(r, d) > Key(p, d))
      && (p !in cube ==> r !in cube)
      && (p !in placed ==> r !in placed)
      && (InBox(m, n, p) ==> InBox(m, n, r))
      && (!CanMove(m, n, r, d) || Next(m, n, r, d) in cube || Next(m, n, r, d) in placed)
    decreases Room(m, n, p, d)
  {
    if CanMove(m, n, p, d) && Next(m, n, p, d) !in cube && Next(m, n, p, d) !in placed {
      SlideFacts(m, n, cube, placed, Next(m, n, p, d), d);
    }
  }

  /** The rocks of `order`, rolled one after the other. */
  function Place(m: nat, n: nat, cube: set<Pos>, order: seq<Pos>, d: Dir): set<Pos>
  {
    if order == [] then {}
    else
      var placed := Place(m, n, cube, order[..|order| - 1], d);
      placed + {Slide(m, n, cube, placed, order[|order| - 1], d)}
  }

  /** `move_rocks_to_dir`: the rocks nearest the edge roll first. */
  function Tilt(m: nat, n: nat, cube: set<Pos>, rounded: set<Pos>, d: Dir): set<Pos>
  {
    Place(m, n, cube, Enumerate(rounded, ByTilt(d)), d)
  }

  /** Rolling rocks sorted toward the edge: no two meet, none lands on a cube, none leaves the platform. */
  /** No rock yet to roll is covered by one already placed. */
  lemma {:induction false} PlaceAhead(m: nat, n: nat, cube: set<Pos>, order: seq<Pos>, d: Dir, k: nat)
    requires k <= |order|
    requires forall i, j :: 0 <= i < j < |order| ==> Key(order[i], d) >= Key(order[j], d) && order[i] != order[j]
    ensures forall q, j :: q in Place(m, n, cube, order[..k], d) && k <= j < |order| ==> q != order[j]
  {
    if k > 0 {
      PlaceAhead(m, n, cube, order, d, k - 1);
      var placed := Place(m, n, cube, order[..k - 1], d);
      assert order[..k][..k - 1] == order[..k - 1];
      SlideFacts(m, n, cube, placed, order[k - 1], d);
      assert Place(m, n, cube, order[..k], d) == placed + {Slide(m, n, cube, placed, order[k - 1], d)};
    }
  }

  /** Every rock placed is a new one, and none lands on a cube. */
  lemma {:induction false} PlaceFacts(m: nat, n: nat, cube: set<Pos>, order: seq<Pos>, d: Dir, k: nat)
    requires k <= |order|
    requires forall i, j :: 0 <= i < j < |order| ==> Key(order[i], d) >= Key(order[j], d) && order[i] != order[j]
    requires forall i :: 0 <= i < |order| ==> order[i] !in cube
    ensures |Place(m, n, cube, order[..k], d)| == k
    ensures forall q :: q in Place(m, n, cube, order[..k], d) ==> q !in cube
  {
    if k > 0 {
      PlaceFacts(m, n, cube, order, d, k - 1);
      PlaceAhead(m, n, cube, order, d, k - 1);
      var placed := Place(m, n, cube, order[..k - 1], d);
      assert order[..k][..k - 1] == order[..k - 1];
      var f := Slide(m, n, cube, placed, order[k - 1], d);
      SlideFacts(m, n, cube, placed, order[k - 1], d);
      assert Place(m, n, cube, order[..k], d) == placed + {f};
      assert f !in placed;
    }
  }

  /** Rocks that start on the platform stay on it. */
  lemma {:induction false} PlaceInBox(m: nat, n: nat, cube: set<Pos>, order: seq<Pos>, d: Dir, k: nat)
    requires k <= |order|
    requires forall i :: 0 <= i < |order| ==> InBox(m, n, order[i])
    ensures forall q :: q in Place(m, n, cube, order[..k], d) ==> InBox(m, n, q)
  {
    if k > 0 {
      PlaceInBox(m, n, cube, order, d, k - 1);
      var placed := Place(m, n, cube, order[..k - 1], d);
      assert order[..k][..k - 1] == order[..k - 1];
      SlideFacts(m, n, cube, placed, order[k - 1], d);
      assert Place(m, n, cube, order[..k], d) == placed + {Slide(m, n, cube, placed, order[k - 1], d)};
    }
  }

  /** A tilt keeps the number of rocks, puts none on a cube and none off the platform. */
  lemma TiltFacts(m: nat, n: nat, cube: set<Pos>, rounded: set<Pos>, d: Dir)
    requires rounded !! cube
    ensures |Tilt(m, n, cube, rounded, d)| == |rounded|
    ensures Tilt(m, n, cube, rounded, d) !! cube
    ensures (forall p :: p in rounded ==> InBox(m, n, p)) ==> forall q :: q in Tilt(m, n, cube, rounded, d) ==> InBox(m, n, q)
  {
    var order := Enumerate(rounded, ByTilt(d));
    EnumerateFacts(rounded, ByTilt(d));
    PlaceFacts(m, n, cube, order, d, |order|);
    assert order[..|order|] == order;
    if forall p :: p in rounded ==> InBox(m, n, p) {
      PlaceInBox(m, n, cube, order, d, |order|);
    }
  }

  /** The `while` loop that rolls one rock until the edge, a cube or a placed rock stops it. */
  method Roll(m: nat, n: nat, cube: set<Pos>, placed: set<Pos>, start: Pos, d: Dir) returns (p: Pos)
    ensures p == Slide(m, n, cube, placed, start, d)
  {
    p := start;
    while CanMove(m, n, p, d)
      invariant Slide(m, n, cube, placed, p, d) == Slide(m, n, cube, placed, start, d)
      decreases Room(m, n, p, d)
    {
      var next := Next(m, n, p, d);
      if next in cube || next in placed {
        break;
      }
      p := next;
    }
  }

  /** `move_rocks_to_dir`: sort toward the edge, then roll the rocks one by one. */
  method MoveRocks(m: nat, n: nat, rounded: set<Pos>, cube: set<Pos>, d: Dir) returns (res: set<Pos>)
    ensures res == Tilt(m, n, cube, rounded, d)
  {
    var order := Enumerate(rounded, ByTilt(d));
    res := {};
    for i := 0 to |order|
      invariant res == Place(m, n, cube, order[..i], d)
    {
      var p := Roll(m, n, cube, res, order[i], d);
      assert order[..i + 1][..i] == order[..i];
      res := res + {p};
    }
    assert order[..|order|] == order;
  }

  // ---------------------------------------------------------------------
  // Load
  // ---------------------------------------------------------------------

  /** `calc_load`: the sum of the rows. */
  function Load(s: set<Pos>): nat
    decreases |s|
  {
    if s == {} then 0
    else
      var x := Least(s, ByPos);
      x.0 + Load(s - {x})
  }

  /** The load does not depend on the order of summation: any rock can be taken out first. */
  lemma {:induction false} LoadRemove(s: set<Pos>, x: Pos)
    requires x in s
    ensures Load(s) == x.0 + Load(s - {x})
    decreases |s|
  {
    var y := Least(s, ByPos);
    if y != x {
      LoadRemove(s - {y}, x);
      LoadRemove(s - {x}, y);
      assert s - {y} - {x} == s - {x} - {y};
    }
  }

  /** With every row in 1..m, the load is between the number of rocks and m times it. */
  lemma {:induction false} LoadBounds(s: set<Pos>, m: nat)
    requires forall p :: p in s ==> 1 <= p.0 <= m
    ensures |s| <= Load(s) <= m * |s|
    decreases |s|
  {
    if s != {} {
      var x := Least(s, ByPos);
      LoadBounds(s - {x}, m);
      MulSucc(m, |s - {x}|);
    }
  }

  lemma MulSucc(m: nat, k: nat)
    ensures m * (k + 1) == m * k + m
  {
  }

  // ---------------------------------------------------------------------
  // The string key of a set of rocks
  // ---------------------------------------------------------------------

  /** `format!("{},{}", r, c)`. */
  function Fmt(p: Pos): string
  {
    NatToString(p.0) + [','] + NatToString(p.1)
  }

  function FmtAll(ps: seq<Pos>): (r: seq<string>)
    ensures |r| == |ps| && forall i :: 0 <= i < |ps| ==> r[i] == Fmt(ps[i])
  {
    if ps == [] then [] else FmtAll(ps[..|ps| - 1]) + [Fmt(ps[|ps| - 1])]
  }

  /** `rounded_to_string`: the positions in tuple order, joined with '|'. */
  function Encode(s: set<Pos>): string
  {
    Join(FmtAll(Enumerate(s, ByPos)), '|')
  }

  /** One piece of `string_to_rounded`: the first two ','-separated fields as numbers. */
  function ParsePos(piece: string): Option<Pos>
  {
    var parts := Split(piece, ',');
    if |parts| >= 2 && ParseNat(parts[0]).Some? && ParseNat(parts[1]).Some? then
      Some((ParseNat(parts[0]).value, ParseNat(parts[1]).value))
    else None
  }

  function DecodeAll(pieces: seq<string>): Option<set<Pos>>
  {
    if pieces == [] then Some({})
    else
      var init, last := DecodeAll(pieces[..|pieces| - 1]), ParsePos(pieces[|pieces| - 1]);
      if init.Some? && last.Some? then Some(init.value + {last.value}) else None
  }

  /** `string_to_rounded`: panics on a piece that is not two numbers, the empty string included. */
  function Decode(t: string): Option<set<Pos>>
  {
    DecodeAll(Split(t, '|'))
  }

  lemma ParseFmt(p: Pos)
    ensures ParsePos(Fmt(p)) == Some(p)
  {
    var a, b := NatToString(p.0), NatToString(p.1);
    assert ',' !in a && ',' !in b;
    SplitFirst(a, ',', b);
    ParseNatToString(p.0);
    ParseNatToString(p.1);
  }

  lemma DecodeAllSnoc(pieces: seq<string>, t: string)
    ensures DecodeAll(pieces + [t]) ==
      if DecodeAll(pieces).Some? && ParsePos(t).Some? then Some(DecodeAll(pieces).value + {ParsePos(t).value}) else None
  {
    assert (pieces + [t])[..|pieces|] == pieces;
  }

  lemma {:induction false} DecodeFmtAll(ps: seq<Pos>)
    ensures DecodeAll(FmtAll(ps)).Some?
    ensures forall x :: x in DecodeAll(FmtAll(ps)).value <==> x in ps
  {
    if ps != [] {
      var init, last := ps[..|ps| - 1], ps[|ps| - 1];
      DecodeFmtAll(init);
      assert FmtAll(ps) == FmtAll(init) + [Fmt(last)];
      DecodeAllSnoc(FmtAll(init), Fmt(last));
      ParseFmt(last);
      assert forall x :: x in ps <==> x in init || x == last;
    }
  }

  lemma FmtNoBar(p: Pos)
    ensures '|' !in Fmt(p)
  {
    var a, b := NatToString(p.0), NatToString(p.1);
    assert forall k :: 0 <= k < |a| ==> IsDigit(a[k]);
    assert forall k :: 0 <= k < |b| ==> IsDigit(b[k]);
  }

  /** Decoding the key of a non-empty set gives the set back. */
  lemma EncodeDecode(s: set<Pos>)
    requires s != {}
    ensures Decode(Encode(s)) == Some(s)
  {
    var ps := Enumerate(s, ByPos);
    EnumerateFacts(s, ByPos);
    var strs := FmtAll(ps);
    forall i | 0 <= i < |strs|
      ensures '|' !in strs[i]
    {
      FmtNoBar(ps[i]);
    }
    SplitJoin(strs, '|');
    assert Split(Encode(s), '|') == strs;
    DecodeFmtAll(ps);
    var d := DecodeAll(strs).value;
    assert forall x :: x in d <==> x in s;
    assert d == s;
  }

  /** The key of the empty set is "", which does not decode. */
  lemma EncodeEmpty()
    ensures Encode({}) == "" && Decode("") == None
  {
    assert Split("", '|') == [""];
    assert Split("", ',') == [""];
    assert DecodeAll([""]) == None;
  }

  /** Equal keys mean equal sets. */
  lemma EncodeInjective(a: set<Pos>, b: set<Pos>)
    requires Encode(a) == Encode(b)
    ensures a == b
  {
    EncodeEmpty();
    if a != {} {
      EncodeDecode(a);
    }
    if b != {} {
      EncodeDecode(b);
    }
  }

  // ---------------------------------------------------------------------
  // Spin cycles
  // ---------------------------------------------------------------------

  /** The tilts of one cycle, in order. */
  function CycleDirs(): seq<Dir>
  {
    [North, West, South, East]
  }

  function TiltAll(m: nat, n: nat, cube: set<Pos>, s: set<Pos>, ds: seq<Dir>): set<Pos>
  {
    if ds == [] then s else Tilt(m, n, cube, TiltAll(m, n, cube, s, ds[..|ds| - 1]), ds[|ds| - 1])
  }

  function Cycle(m: nat, n: nat, cube: set<Pos>, s: set<Pos>): set<Pos>
  {
    TiltAll(m, n, cube, s, CycleDirs())
  }

  /** f applied k times. */
  function Iter<T>(f: T -> T, s: T, k: nat): T
  {
    if k == 0 then s else f(Iter(f, s, k - 1))
  }

  /** The rocks after k cycles. */
  function Iterate(m: nat, n: nat, cube: set<Pos>, s: set<Pos>, k: nat): set<Pos>
  {
    Iter(t => Cycle(m, n, cube, t), s, k)
  }

  lemma {:induction false} TiltAllFacts(m: nat, n: nat, cube: set<Pos>, s: set<Pos>, ds: seq<Dir>)
    requires s !! cube
    ensures |TiltAll(m, n, cube, s, ds)| == |s| && TiltAll(m, n, cube, s, ds) !! cube
  {
    if ds != [] {
      TiltAllFacts(m, n, cube, s, ds[..|ds| - 1]);
      TiltFacts(m, n, cube, TiltAll(m, n, cube, s, ds[..|ds| - 1]), ds[|ds| - 1]);
    }
  }

  /** Cycling keeps the number of rocks and keeps them off the cubes. */
  lemma {:induction false} IterateFacts(m: nat, n: nat, cube: set<Pos>, s: set<Pos>, k: nat)
    requires s !! cube
    ensures |Iterate(m, n, cube, s, k)| == |s| && Iterate(m, n, cube, s, k) !! cube
  {
    if k > 0 {
      IterateFacts(m, n, cube, s, k - 1);
      TiltAllFacts(m, n, cube, Iterate(m, n, cube, s, k - 1), CycleDirs());
      assert Iterate(m, n, cube, s, k) == Cycle(m, n, cube, Iterate(m, n, cube, s, k - 1));
    }
  }

  lemma {:induction false} ShiftPeriod<T>(f: T -> T, s: T, a: nat, len: nat, i: nat)
    requires Iter(f, s, a + len) == Iter(f, s, a)
    ensures Iter(f, s, a + i + len) == Iter(f, s, a + i)
  {
    if i > 0 {
      ShiftPeriod(f, s, a, len, i - 1);
    }
  }

  /** Once the state after a + len steps repeats the one after a, the state after any a + x steps is known. */
  lemma {:induction false} Periodic<T>(f: T -> T, s: T, a: nat, len: nat, x: nat)
    requires len > 0
    requires Iter(f, s, a + len) == Iter(f, s, a)
    ensures Iter(f, s, a + x) == Iter(f, s, a + x % len)
  {
    PeriodicReduce(f, s, a, len, x);
    ReduceMod(x, len);
  }

  /** `x % len` by repeated subtraction. */
  function Reduce(x: nat, len: nat): nat
    requires len > 0
  {
    if x < len then x else Reduce(x - len, len)
  }

  lemma {:induction false} ReduceMod(x: nat, len: nat)
    requires len > 0
    ensures Reduce(x, len) == x % len
  {
    if x >= len {
      ReduceMod(x - len, len);
      Arith.WrapPeriodic(x, len);
    }
  }

  lemma {:induction false} PeriodicReduce<T>(f: T -> T, s: T, a: nat, len: nat, x: nat)
    requires len > 0
    requires Iter(f, s, a + len) == Iter(f, s, a)
    ensures Iter(f, s, a + x) == Iter(f, s, a + Reduce(x, len))
  {
    if x >= len {
      var y := x - len;
      PeriodicReduce(f, s, a, len, y);
      ShiftPeriod(f, s, a, len, y);
      assert a + y + len == a + x;
    }
  }

  /** `list_rounded.iter().position(..).unwrap()`. */
  method FirstIndex(list: seq<string>, x: string) returns (i: nat)
    requires x in list
    ensures i < |list| && list[i] == x && x !in list[..i]
  {
    i := 0;
    while list[i] != x
      invariant i < |list| && x !in list[..i] && x in list[i..]
      decreases |list| - i
    {
      assert list[i..] == [list[i]] + list[i + 1..];
      i := i + 1;
    }
  }

  /** After a repeat at `stop` of the state at `start`, `k` cycles lead where `start + (k - start) % (stop - start)` do. */
  lemma RepeatAnswer(m: nat, n: nat, cube: set<Pos>, rounded: set<Pos>, start: nat, stop: nat, k: nat)
    requires start < stop <= k
    requires Iterate(m, n, cube, rounded, stop) == Iterate(m, n, cube, rounded, start)
    ensures Iterate(m, n, cube, rounded, k) == Iterate(m, n, cube, rounded, start + (k - start) % (stop - start))
  {
    RepeatAt(t => Cycle(m, n, cube, t), rounded, start, stop, k);
  }

  /** The first k values of g. */
  function Prefix<T>(g: nat -> T, k: nat): (r: seq<T>)
    ensures |r| == k
  {
    if k == 0 then [] else Prefix(g, k - 1) + [g(k - 1)]
  }

  lemma {:induction false} PrefixAt<T>(g: nat -> T, k: nat, i: nat)
    requires i < k
    ensures Prefix(g, k)[i] == g(i)
  {
    if i < k - 1 {
      PrefixAt(g, k - 1, i);
    }
  }

  /** The key of the state after i cycles. */
  ghost function KeyAfter(m: nat, n: nat, cube: set<Pos>, rounded: set<Pos>): nat -> string
  {
    (i: nat) => Encode(Iterate(m, n, cube, rounded, i))
  }

  /** Without rocks every state is empty, so its key is already the first one remembered. */
  lemma FreshKeyHasRocks(m: nat, n: nat, cube: set<Pos>, rounded: set<Pos>, list: seq<string>, k: nat)
    requires 0 < k && list == Prefix(KeyAfter(m, n, cube, rounded), k)
    requires Encode(Iterate(m, n, cube, rounded, k)) !in list
    ensures rounded != {}
  {
    if rounded == {} {
      IterateFacts(m, n, cube, rounded, k);
      PrefixAt(KeyAfter(m, n, cube, rounded), k, 0);
    }
  }

  /** The remembered key at the index the repeat points to decodes to the state after `k` cycles. */
  lemma RepeatDecode(m: nat, n: nat, cube: set<Pos>, rounded: set<Pos>, list: seq<string>, start: nat, stop: nat, k: nat, idx: nat)
    requires rounded !! cube
    requires start < stop <= k && list == Prefix(KeyAfter(m, n, cube, rounded), stop)
    requires Iterate(m, n, cube, rounded, stop) == Iterate(m, n, cube, rounded, start)
    requires idx == start + (k - start) % (stop - start)
    ensures idx < |list|
    ensures Decode(list[idx]) == if rounded == {} then None else Some(Iterate(m, n, cube, rounded, k))
  {
    assert idx < stop by {
      assert Arith.Wrap(k - start, stop - start) == (k - start) % (stop - start);
    }
    var state := Iterate(m, n, cube, rounded, idx);
    assert Iterate(m, n, cube, rounded, k) == state by {
      RepeatAnswer(m, n, cube, rounded, start, stop, k);
    }
    assert list[idx] == Encode(state) by {
      PrefixAt(KeyAfter(m, n, cube, rounded), stop, idx);
    }
    IterateFacts(m, n, cube, rounded, idx);
    DecodeKey(rounded, state);
  }

  /** The key of a state with as many rocks as the start decodes back, unless there are none. */
  lemma DecodeKey(rounded: set<Pos>, state: set<Pos>)
    requires |state| == |rounded|
    ensures Decode(Encode(state)) == if rounded == {} then None else Some(state)
  {
    if rounded == {} {
      assert state == {};
      EncodeEmpty();
    } else {
      EncodeDecode(state);
    }
  }

  lemma RepeatAt<T>(f: T -> T, s: T, start: nat, stop: nat, k: nat)
    requires start < stop <= k
    requires Iter(f, s, stop) == Iter(f, s, start)
    ensures Iter(f, s, k) == Iter(f, s, start + (k - start) % (stop - start))
  {
    var len := stop - start;
    var x := k - start;
    assert start + len == stop && start + x == k;
    Periodic(f, s, start, len, x);
  }

  lemma SeenSnoc<T>(seen: set<T>, list: seq<T>, x: T)
    requires forall t :: t in seen <==> t in list
    ensures forall t :: t in seen + {x} <==> t in list + [x]
  {
  }

  /** At a repeat after `stop` cycles: find where the repeated state was first seen and read the answer off the list. */
  method ReadOffRepeat(m: nat, n: nat, cube: set<Pos>, rounded: set<Pos>, list: seq<string>, cur: set<Pos>, stop: nat, numCycles: nat)
    returns (r: Option<set<Pos>>)
    requires rounded !! cube
    requires 0 < stop <= numCycles && list == Prefix(KeyAfter(m, n, cube, rounded), stop)
    requires cur == Iterate(m, n, cube, rounded, stop) && Encode(cur) in list
    ensures r == if rounded == {} then None else Some(Iterate(m, n, cube, rounded, numCycles))
  {
    var start := FirstIndex(list, Encode(cur));
    PrefixAt(KeyAfter(m, n, cube, rounded), stop, start);
    EncodeInjective(cur, Iterate(m, n, cube, rounded, start));
    var idx := start + (numCycles - start) % (stop - start);
    RepeatDecode(m, n, cube, rounded, list, start, stop, numCycles, idx);
    r := Decode(list[idx]);
  }

  /** The inner loop of `move_cycles`: one tilt in each of the four directions, in turn. */
  method SpinCycle(m: nat, n: nat, rounded: set<Pos>, cube: set<Pos>) returns (cur: set<Pos>)
    ensures cur == Cycle(m, n, cube, rounded)
  {
    cur := rounded;
    for k := 0 to 4
      invariant cur == TiltAll(m, n, cube, rounded, CycleDirs()[..k])
    {
      assert CycleDirs()[..k + 1][..k] == CycleDirs()[..k];
      cur := MoveRocks(m, n, cur, cube, CycleDirs()[k]);
    }
    assert CycleDirs()[..4] == CycleDirs();
  }

  lemma IterateSucc(m: nat, n: nat, cube: set<Pos>, s: set<Pos>, k: nat)
    ensures Iterate(m, n, cube, s, k + 1) == Cycle(m, n, cube, Iterate(m, n, cube, s, k))
  {
  }

  /**
   * `move_cycles`: the states are remembered by their keys; at the first
   * repeat the answer is read off the remembered list. For no rocks at all
   * the repeat comes at once and the empty key fails to decode.
   */
  method MoveCycles(m: nat, n: nat, rounded: set<Pos>, cube: set<Pos>, numCycles: nat) returns (r: Option<set<Pos>>)
    requires rounded !! cube
    ensures r == if rounded == {} && numCycles > 0 then None else Some(Iterate(m, n, cube, rounded, numCycles))
  {
    var cur := rounded;
    var str := Encode(cur);
    var seen := {str};
    var list := [str];
    for cycle := 0 to numCycles
      invariant cur == Iterate(m, n, cube, rounded, cycle)
      invariant list == Prefix(KeyAfter(m, n, cube, rounded), cycle + 1)
      invariant forall t :: t in seen <==> t in list
      invariant rounded == {} ==> cycle == 0
    {
      cur := SpinCycle(m, n, cur, cube);
      IterateSucc(m, n, cube, rounded, cycle);
      str := Encode(cur);
      assert str in seen <==> str in list;
      if str in seen {
        r := ReadOffRepeat(m, n, cube, rounded, list, cur, cycle + 1, numCycles);
        return;
      }
      FreshKeyHasRocks(m, n, cube, rounded, list, cycle + 1);
      SeenSnoc(seen, list, str);
      seen := seen + {str};
      list := list + [str];
    }
    r := Some(cur);
  }

  // ---------------------------------------------------------------------
  // The two parts
  // ---------------------------------------------------------------------

  /** `p1`: the load after one tilt north; None where the parser panics. */
  method P1(lines: seq<string>) returns (r: Option<nat>)
    ensures r.Some? <==> lines != [] && ValidLines(lines)
    ensures r.Some? ==> forall pl :: ParsedAs(lines, pl) ==> r.value == Load(Tilt(pl.m, pl.n, pl.cube, pl.rounded, North))
  {
    var pl := ParseLines(lines);
    if pl.None? {
      return None;
    }
    var p := pl.value;
    var moved := MoveRocks(p.m, p.n, p.rounded, p.cube, North);
    r := Some(Load(moved));
    forall q | ParsedAs(lines, q)
      ensures r.value == Load(Tilt(q.m, q.n, q.cube, q.rounded, North))
    {
      ParsedUnique(lines, p, q);
    }
  }

  /** `p2`: the load after 10^9 cycles; None where the parser panics or there is no round rock. */
  method P2(lines: seq<string>) returns (r: Option<nat>)
    ensures r.Some? ==> lines != [] && ValidLines(lines)
    ensures lines != [] && ValidLines(lines) ==> forall pl :: ParsedAs(lines, pl) ==>
      r == if pl.rounded == {} then None else Some(Load(Iterate(pl.m, pl.n, pl.cube, pl.rounded, 1000000000)))
  {
    var pl := ParseLines(lines);
    if pl.None? {
      return None;
    }
    var p := pl.value;
    ParsedUnique(lines, p, p);
    var moved := MoveCycles(p.m, p.n, p.rounded, p.cube, 1000000000);
    if moved.None? {
      return None;
    }
    r := Some(Load(moved.value));
    forall q | ParsedAs(lines, q)
      ensures r == if q.rounded == {} then None else Some(Load(Iterate(q.m, q.n, q.cube, q.rounded, 1000000000)))
    {
      ParsedUnique(lines, p, q);
    }
  }
}
