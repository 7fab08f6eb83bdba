/**
 * Day 2: cube games. A line "Game 7: 3 blue, 4 red; 1 red, 2 green" lists
 * the draws of one game; ',' continues a draw and ';' (or the end of the
 * line) closes it. Part 1 sums the ids of the games that show more than
 * 12 red, 13 green or 14 blue cubes in some draw; part 2 sums, over the
 * games, the product of the largest count seen of each colour.
 */
module D2 {
  import opened Wrappers
  import opened Text

  /** One draw's counts; a colour not mentioned is 0. */
  datatype Draw = Draw(red: int, green: int, blue: int)

  const NoCubes := Draw(0, 0, 0)

  /** The colour word sets its count; any other word is a panic. */
  function SetColour(cur: Draw, colour: string, count: int): (r: Option<Draw>)
    ensures r.Some? <==> colour in {"red", "green", "blue"}
    ensures colour == "red" ==> r == Some(cur.(red := count))
    ensures colour == "green" ==> r == Some(cur.(green := count))
    ensures colour == "blue" ==> r == Some(cur.(blue := count))
  {
    if colour == "red" then Some(cur.(red := count))
    else if colour == "green" then Some(cur.(green := count))
    else if colour == "blue" then Some(cur.(blue := count))
    else None
  }

  /** A colour token without its trailing ';' or ','. */
  function ColourName(token: string): string
    requires |token| > 0
  {
    var last := token[|token| - 1];
    if last == ';' || last == ',' then token[..|token| - 1] else token
  }

  /**
   * The draws read from the (count, colour) token pairs at idx, idx+2, ...,
   * with `cur` the counts of the draw still open; None on a bad count, a
   * missing colour token or an unknown colour.
   */
  function DrawsFrom(parts: seq<string>, idx: nat, cur: Draw): (r: Option<seq<Draw>>)
    requires forall i :: 0 <= i < |parts| ==> |parts[i]| > 0
    decreases |parts| - idx
  {
    if idx >= |parts| then Some([])
    else if idx + 1 >= |parts| then None
    else match ParseInt(parts[idx])
      case None => None
      case Some(count) =>
        var token := parts[idx + 1];
        match SetColour(cur, ColourName(token), count)
        case None => None
        case Some(next) =>
          if token[|token| - 1] != ',' then
            match DrawsFrom(parts, idx + 2, NoCubes)
            case None => None
            case Some(rest) => Some([next] + rest)
          else DrawsFrom(parts, idx + 2, next)
  }

  /** The colour tokens from idx on that close a draw (do not end in ','). */
  function Closing(parts: seq<string>, idx: nat): nat
    requires forall i :: 0 <= i < |parts| ==> |parts[i]| > 0
    decreases |parts| - idx
  {
    if idx + 1 >= |parts| then 0
    else (if parts[idx + 1][|parts[idx + 1]| - 1] != ',' then 1 else 0) + Closing(parts, idx + 2)
  }

  /** There is one draw per closing colour token: ',' continues a draw, anything else ends it. */
  lemma {:induction false} DrawsCount(parts: seq<string>, idx: nat, cur: Draw)
    requires forall i :: 0 <= i < |parts| ==> |parts[i]| > 0
    requires DrawsFrom(parts, idx, cur).Some?
    ensures |DrawsFrom(parts, idx, cur).value| == Closing(parts, idx)
    decreases |parts| - idx
  {
    if idx < |parts| {
      var token := parts[idx + 1];
      var next := SetColour(cur, ColourName(token), ParseInt(parts[idx]).value).value;
      if token[|token| - 1] != ',' {
        DrawsCount(parts, idx + 2, NoCubes);
      } else {
        DrawsCount(parts, idx + 2, next);
      }
    }
  }

  /** An unknown colour anywhere in the pairs is a panic. */
  lemma {:induction false} UnknownColourFails(parts: seq<string>, idx: nat, cur: Draw, j: nat)
    requires forall i :: 0 <= i < |parts| ==> |parts[i]| > 0
    requires idx <= j && j + 1 < |parts| && (j - idx) % 2 == 0
    requires ColourName(parts[j + 1]) !in {"red", "green", "blue"}
    ensures DrawsFrom(parts, idx, cur).None?
    decreases |parts| - idx
  {
    if idx < j && ParseInt(parts[idx]).Some? {
      var token := parts[idx + 1];
      var next := SetColour(cur, ColourName(token), ParseInt(parts[idx]).value);
      if next.Some? {
        UnknownColourFails(parts, idx + 2, if token[|token| - 1] != ',' then NoCubes else next.value, j);
      }
    }
  }

  /** The game id: the second token without its last character (the ':'). */
  function GameId(parts: seq<string>): Option<int>
    requires forall i :: 0 <= i < |parts| ==> |parts[i]| > 0
  {
    if |parts| < 2 then None else ParseInt(parts[1][..|parts[1]| - 1])
  }

  function ParseGame(line: string): Option<(int, seq<Draw>)>
  {
    var parts := SplitWhitespace(line);
    match (GameId(parts), DrawsFrom(parts, 2, NoCubes))
    case (Some(id), Some(draws)) => Some((id, draws))
    case _ => None
  }

  /** The tokens of "Game 7: 3 blue, 4 red; 1 red, 2 green" make game 7 with two draws. */
  lemma GameExample(parts: seq<string>)
    requires parts == ["Game", "7:", "3", "blue,", "4", "red;", "1", "red,", "2", "green"]
    ensures GameId(parts) == Some(7)
    ensures DrawsFrom(parts, 2, NoCubes) == Some([Draw(4, 0, 3), Draw(1, 2, 0)])
  {
    assert ColourName("blue,") == "blue";
    assert ColourName("red;") == "red";
    assert ColourName("red,") == "red";
    assert ColourName("green") == "green";
    assert ParseInt("2") == Some(2) && ParseInt("1") == Some(1);
    assert ParseInt("4") == Some(4) && ParseInt("3") == Some(3);
    assert DrawsFrom(parts, 10, NoCubes) == Some([]);
    assert parts[9][|parts[9]| - 1] == 'n' && ColourName(parts[9]) == "green";
    assert SetColour(Draw(1, 0, 0), "green", 2) == Some(Draw(1, 2, 0));
    assert [Draw(1, 2, 0)] + [] == [Draw(1, 2, 0)];
    assert DrawsFrom(parts, 8, Draw(1, 0, 0)) == Some([Draw(1, 2, 0)]);
    assert DrawsFrom(parts, 6, NoCubes) == Some([Draw(1, 2, 0)]);
    assert parts[5][|parts[5]| - 1] == ';' && ColourName(parts[5]) == "red";
    assert SetColour(Draw(0, 0, 3), "red", 4) == Some(Draw(4, 0, 3));
    assert [Draw(4, 0, 3)] + [Draw(1, 2, 0)] == [Draw(4, 0, 3), Draw(1, 2, 0)];
    assert DrawsFrom(parts, 4, Draw(0, 0, 3)) == Some([Draw(4, 0, 3), Draw(1, 2, 0)]);
    assert parts[1][..1] == "7";
  }

  function Prepend(done: seq<Draw>, rest: Option<seq<Draw>>): (r: Option<seq<Draw>>)
    ensures done == [] ==> r == rest
  {
    match rest
    case None => None
    case Some(r) =>
      assert [] + r == r;
      Some(done + r)
  }

  /** Closing a draw moves it from the parsed rest to the done part. */
  lemma PrependStep(done: seq<Draw>, d: Draw, rest: Option<seq<Draw>>)
    ensures Prepend(done + [d], rest) == Prepend(done, match rest case None => None case Some(r) => Some([d] + r))
  {
    if rest.Some? {
      assert done + [d] + rest.value == done + ([d] + rest.value);
    }
  }

  /** The source's token loop for one line. */
  method ParseLine(line: string) returns (r: Option<(int, seq<Draw>)>)
    ensures r == ParseGame(line)
  {
    var parts := SplitWhitespace(line);
    if |parts| < 2 {
      return None;
    }
    var gameId := ParseInt(parts[1][..|parts[1]| - 1]);
    if gameId.None? {
      return None;
    }
    var draws: seq<Draw> := [];
    var idx := 2;
    var cur := NoCubes;
    while idx < |parts|
      invariant Prepend(draws, DrawsFrom(parts, idx, cur)) == DrawsFrom(parts, 2, NoCubes)
      decreases |parts| - idx
    {
      if idx + 1 >= |parts| {
        return None;
      }
      var count := ParseInt(parts[idx]);
      if count.None? {
        return None;
      }
      var token := parts[idx + 1];
      var lastChar := token[|token| - 1];
      var next := SetColour(cur, ColourName(token), count.value);
      if next.None? {
        return None;
      }
      if lastChar != ',' {
        PrependStep(draws, next.value, DrawsFrom(parts, idx + 2, NoCubes));
        draws := draws + [next.value];
        cur := NoCubes;
      } else {
        cur := next.value;
      }
      idx := idx + 2;
    }
    assert draws + [] == draws;
    return Some((gameId.value, draws));
  }

  /** A line parser returning a game's id and draws. */
  type GameParser = string -> Option<(int, seq<Draw>)>

  /** The games by id under `parse`; a later line with the same id replaces an earlier one. */
  function GatherGames(parse: GameParser, lines: seq<string>): (r: Option<map<int, seq<Draw>>>)
    ensures r.None? <==> exists i :: 0 <= i < |lines| && parse(lines[i]).None?
    ensures r.Some? ==> forall i :: 0 <= i < |lines| ==> parse(lines[i]).value.0 in r.value
  {
    if lines == [] then Some(map[])
    else
      var init := lines[..|lines| - 1];
      assert forall i :: 0 <= i < |init| ==> init[i] == lines[i];
      match (GatherGames(parse, init), parse(lines[|lines| - 1]))
      case (Some(m), Some((id, draws))) => Some(m[id := draws])
      case _ => None
  }

  /** `get_list_cubes`: the games by id; a later line with the same id replaces an earlier one. */
  function Games(lines: seq<string>): (r: Option<map<int, seq<Draw>>>)
    ensures r.None? <==> exists i :: 0 <= i < |lines| && ParseGame(lines[i]).None?
    ensures r.Some? ==> forall i :: 0 <= i < |lines| ==> ParseGame(lines[i]).value.0 in r.value
  {
    GatherGames(ParseGame, lines)
  }

  method GetListCubes(lines: seq<string>) returns (r: Option<map<int, seq<Draw>>>)
    ensures r == Games(lines)
  {
    var ht: map<int, seq<Draw>> := map[];
    for k := 0 to |lines|
      invariant Games(lines[..k]) == Some(ht)
    {
      assert lines[..k + 1][..k] == lines[..k];
      var game := ParseLine(lines[k]);
      if game.None? {
        GamesFails(lines, k);
        return None;
      }
      ht := ht[game.value.0 := game.value.1];
    }
    assert lines[..|lines|] == lines;
    return Some(ht);
  }

  lemma GamesFails(lines: seq<string>, k: nat)
    requires k < |lines| && ParseGame(lines[k]).None?
    ensures Games(lines) == None
  {
  }

  // ---------------------------------------------------------------------
  // The two parts: sums over the games, in any order
  // ---------------------------------------------------------------------

  predicate TooMany(d: Draw)
  {
    d.red > 12 || d.green > 13 || d.blue > 14
  }

  predicate AnyTooMany(draws: seq<Draw>)
  {
    exists i :: 0 <= i < |draws| && TooMany(draws[i])
  }

  /** The per-colour maxima, starting from 0. */
  function Maxima(draws: seq<Draw>): (m: Draw)
    ensures forall i :: 0 <= i < |draws| ==>
      draws[i].red <= m.red && draws[i].green <= m.green && draws[i].blue <= m.blue
    ensures 0 <= m.red && 0 <= m.green && 0 <= m.blue
    ensures m.red == 0 || exists i :: 0 <= i < |draws| && draws[i].red == m.red
    ensures m.green == 0 || exists i :: 0 <= i < |draws| && draws[i].green == m.green
    ensures m.blue == 0 || exists i :: 0 <= i < |draws| && draws[i].blue == m.blue
  {
    if draws == [] then NoCubes
    else
      var m := Maxima(draws[..|draws| - 1]);
      var d := draws[|draws| - 1];
      assert forall i :: 0 <= i < |draws| - 1 ==> draws[..|draws| - 1][i] == draws[i];
      Draw(Max(m.red, d.red), Max(m.green, d.green), Max(m.blue, d.blue))
  }

  function Max(a: int, b: int): int
  {
    if a < b then b else a
  }

  function Power(draws: seq<Draw>): int
  {
    var m := Maxima(draws);
    m.red * m.green * m.blue
  }

  /** What one game adds: its id in part 1 when some draw shows too many cubes; its power in part 2. */
  function Contribution(id: int, draws: seq<Draw>, part2: bool): int
  {
    if part2 then Power(draws) else if AnyTooMany(draws) then id else 0
  }

  /** A non-empty map has a key. */
  lemma HasKey(m: map<int, seq<Draw>>)
    ensures m == map[] || exists id :: id in m
  {
    if forall id :: id !in m {
      assert m == map[];
    }
  }

  /** The sum of the contributions of all games of a map. */
  ghost function Total(m: map<int, seq<Draw>>, part2: bool): int
    decreases |m|
  {
    if m == map[] then 0
    else
      HasKey(m);
      var id :| id in m;
      Contribution(id, m[id], part2) + Total(m - {id}, part2)
  }

  /** The total does not depend on which game is taken out first. */
  lemma {:induction false} TotalRemove(m: map<int, seq<Draw>>, part2: bool, k: int)
    requires k in m
    ensures Total(m, part2) == Contribution(k, m[k], part2) + Total(m - {k}, part2)
    decreases |m|
  {
    var id :| id in m && Total(m, part2) == Contribution(id, m[id], part2) + Total(m - {id}, part2);
    if id != k {
      TotalRemove(m - {id}, part2, k);
      TotalRemove(m - {k}, part2, id);
      assert m - {id} - {k} == m - {k} - {id};
    }
  }

  /** Both parts' loops over the game map, taking the games in an arbitrary order. */
  method SumGames(ht: map<int, seq<Draw>>, part2: bool) returns (total: int)
    ensures total == Total(ht, part2)
  {
    total := 0;
    var left := ht;
    while left != map[]
      invariant left.Keys <= ht.Keys && forall id :: id in left ==> left[id] == ht[id]
      invariant total + Total(left, part2) == Total(ht, part2)
      decreases |left|
    {
      HasKey(left);
      var id :| id in left;
      TotalRemove(left, part2, id);
      total := total + Contribution(id, left[id], part2);
      left := left - {id};
    }
  }

  /** One game's maxima loop. */
  method GamePower(draws: seq<Draw>) returns (p: int)
    ensures p == Power(draws)
  {
    var mxR, mxG, mxB := 0, 0, 0;
    for i := 0 to |draws|
      invariant Maxima(draws[..i]) == Draw(mxR, mxG, mxB)
    {
      assert draws[..i + 1][..i] == draws[..i];
      mxR := Max(mxR, draws[i].red);
      mxG := Max(mxG, draws[i].green);
      mxB := Max(mxB, draws[i].blue);
    }
    assert draws[..|draws|] == draws;
    p := mxR * mxG * mxB;
  }

  /** Part 1: the sum of the ids of the games with a draw of too many cubes. */
  method P1(lines: seq<string>) returns (r: Option<int>)
    ensures r.None? <==> Games(lines).None?
    ensures r.Some? ==> r.value == Total(Games(lines).value, false)
  {
    var ht := GetListCubes(lines);
    if ht.None? {
      return None;
    }
    var total := SumGames(ht.value, false);
    return Some(total);
  }

  /** Part 2: the sum of the games' powers. */
  method P2(lines: seq<string>) returns (r: Option<int>)
    ensures r.None? <==> Games(lines).None?
    ensures r.Some? ==> r.value == Total(Games(lines).value, true)
  {
    var ht := GetListCubes(lines);
    if ht.None? {
      return None;
    }
    var total := SumGames(ht.value, true);
    return Some(total);
  }

  /** A game with no draw over the limits adds nothing to part 1. */
  lemma {:induction false} TotalWithinLimits(m: map<int, seq<Draw>>)
    requires forall id :: id in m ==> !AnyTooMany(m[id])
    ensures Total(m, false) == 0
    decreases |m|
  {
    if m != map[] {
      HasKey(m);
      var id :| id in m;
      TotalRemove(m, false, id);
      TotalWithinLimits(m - {id});
    }
  }
}
