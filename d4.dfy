/**
 * Day 4: scratchcards. A card lists winning numbers and numbers held; its
 * matches are the numbers in both sets. Part 1 scores 2^(matches-1) per
 * card; part 2 lets every card win one copy of each of the next `matches`
 * cards per copy of itself, and counts all the cards in the end.
 */
module D4 {
  import opened Wrappers
  import opened Text

  datatype Card = Card(winning: set<int>, having: set<int>)

  /** Whitespace-separated integers collected into a set; a bad token is a panic. */
  function NumberSet(tokens: seq<string>): (r: Option<set<int>>)
    ensures r.None? <==> exists i :: 0 <= i < |tokens| && ParseInt(tokens[i]).None?
    ensures r.Some? ==> forall x :: x in r.value <==> exists i :: 0 <= i < |tokens| && ParseInt(tokens[i]) == Some(x)
  {
    if tokens == [] then Some({})
    else
      var rest := NumberSet(tokens[1..]);
      assert forall i :: 0 < i < |tokens| ==> tokens[i] == tokens[1..][i - 1];
      match (ParseInt(tokens[0]), rest)
      case (Some(x), Some(xs)) => Some({x} + xs)
      case (None, _) => None
      case (_, None) => None
  }

  /** `split_line`: the trimmed text after the first ':'; a missing ':' is a panic. */
  function AfterColon(s: string): (r: Option<string>)
    ensures r.Some? <==> ':' in s
  {
    var pieces := Split(s, ':');
    if |pieces| >= 2 then Some(Trim(pieces[1])) else None
  }

  /** One line: "Card n: winning | having"; a missing ':' or '|' or a bad number is a panic. */
  function ParseCard(line: string): (r: Option<Card>)
    ensures '|' !in line ==> r.None?
  {
    var halves := Split(line, '|');
    if |halves| < 2 then None
    else match AfterColon(halves[0])
      case None => None
      case Some(first) =>
        match (NumberSet(SplitWhitespace(first)), NumberSet(SplitWhitespace(halves[1])))
        case (Some(w), Some(h)) => Some(Card(w, h))
        case _ => None
  }

  function ParseCards(lines: seq<string>): (r: Option<seq<Card>>)
    ensures r.None? <==> exists i :: 0 <= i < |lines| && ParseCard(lines[i]).None?
    ensures r.Some? ==> |r.value| == |lines| && forall i :: 0 <= i < |lines| ==> ParseCard(lines[i]) == Some(r.value[i])
  {
    MapAll(ParseCard, lines)
  }

  /** The source's loop over the lines. */
  method ParseLines(lines: seq<string>) returns (r: Option<seq<Card>>)
    ensures r == ParseCards(lines)
  {
    var cards: seq<Card> := [];
    for k := 0 to |lines|
      invariant ParseCards(lines[..k]) == Some(cards)
    {
      MapAllSnoc(ParseCard, lines, k);
      var c := ParseCard(lines[k]);
      if c.None? {
        ParseCardsFails(lines, k);
        return None;
      }
      cards := cards + [c.value];
    }
    assert lines[..|lines|] == lines;
    return Some(cards);
  }

  lemma ParseCardsFails(lines: seq<string>, k: nat)
    requires k < |lines| && ParseCard(lines[k]).None?
    ensures ParseCards(lines) == None
  {
  }

  /** The numbers a card both wins with and holds. */
  function Matching(c: Card): nat
  {
    |c.winning * c.having|
  }

  /** Matches count common numbers once each, and never exceed either set. */
  lemma MatchingBounds(c: Card)
    ensures Matching(c) <= |c.winning| && Matching(c) <= |c.having|
    ensures Matching(c) == 0 <==> forall x :: x in c.winning ==> x !in c.having
  {
    var common := c.winning * c.having;
    if forall x :: x in c.winning ==> x !in c.having {
      assert common == {};
    } else {
      var x :| x in c.winning && x in c.having;
      assert x in common;
    }
    assert c.winning == common + (c.winning - common);
    assert c.having == common + (c.having - common);
  }

  function Pow2(e: nat): (r: nat)
    ensures r >= 1
  {
    if e == 0 then 1 else 2 * Pow2(e - 1)
  }

  /** A card's points: none without matches, one for the first match, doubled by each further one. */
  function Score(m: nat): nat
  {
    if m == 0 then 0 else Pow2(m - 1)
  }

  lemma ScoreDoubles(m: nat)
    ensures Score(0) == 0 && Score(1) == 1
    ensures m >= 1 ==> Score(m + 1) == 2 * Score(m)
  {
  }

  function TotalPoints(cards: seq<Card>): nat
  {
    if cards == [] then 0 else TotalPoints(cards[..|cards| - 1]) + Score(Matching(cards[|cards| - 1]))
  }

  /** The source's scoring loop over the parsed cards. */
  method SumPoints(cards: seq<Card>) returns (totPts: nat)
    ensures totPts == TotalPoints(cards)
  {
    totPts := 0;
    for k := 0 to |cards|
      invariant totPts == TotalPoints(cards[..k])
    {
      assert cards[..k + 1][..k] == cards[..k];
      var matching := Matching(cards[k]);
      if matching > 0 {
        totPts := totPts + Pow2(matching - 1);
      }
    }
    assert cards[..|cards|] == cards;
  }

  /** Part 1: the sum of the card scores; None when a line does not parse. */
  method P1(lines: seq<string>) returns (r: Option<nat>)
    ensures r.None? <==> ParseCards(lines).None?
    ensures r.Some? ==> r.value == TotalPoints(ParseCards(lines).value)
  {
    var parsed := ParseLines(lines);
    if parsed.None? {
      return None;
    }
    var totPts := SumPoints(parsed.value);
    return Some(totPts);
  }

  // ---------------------------------------------------------------------
  // Part 2: copies
  // ---------------------------------------------------------------------

  /**
   * The number of copies of card k in the end, for card match counts `ms`:
   * the original plus what the earlier cards win of it.
   */
  function Copies(ms: seq<nat>, k: nat): nat
    requires k < |ms|
    decreases k, 1
  {
    1 + Incoming(ms, k, k)
  }

  /** The copies of card k won by cards 0 .. i-1: card p wins one per copy of itself when p < k <= p + ms[p]. */
  function Incoming(ms: seq<nat>, k: nat, i: nat): nat
    requires k < |ms| && i <= k
    decreases i, 0
  {
    if i == 0 then 0
    else Incoming(ms, k, i - 1) + (if k <= i - 1 + ms[i - 1] then Copies(ms, i - 1) else 0)
  }

  function TotalCopies(ms: seq<nat>, n: nat): nat
    requires n <= |ms|
  {
    if n == 0 then 0 else TotalCopies(ms, n - 1) + Copies(ms, n - 1)
  }

  /** Every card keeps its original, so the total is at least the number of cards; a card no earlier card reaches keeps one copy. */
  lemma {:induction false} TotalAtLeastCards(ms: seq<nat>, n: nat)
    requires n <= |ms|
    ensures TotalCopies(ms, n) >= n
  {
    if n > 0 {
      TotalAtLeastCards(ms, n - 1);
    }
  }

  lemma {:induction false} IncomingNone(ms: seq<nat>, k: nat, i: nat)
    requires k < |ms| && i <= k
    requires forall p :: 0 <= p < i ==> p + ms[p] < k
    ensures Incoming(ms, k, i) == 0
  {
    if i > 0 {
      IncomingNone(ms, k, i - 1);
    }
  }

  /** Without matches every card stays a single copy. */
  lemma NoMatchesOneCopyEach(ms: seq<nat>, k: nat)
    requires k < |ms| && forall p :: 0 <= p < |ms| ==> ms[p] == 0
    ensures Copies(ms, k) == 1
  {
    IncomingNone(ms, k, k);
  }

  /** The inner loop: card i's `cnt` copies each win one more of cards i+1 .. i+m that exist. */
  method AddCopies(copies: array<nat>, i: nat, m: nat, cnt: nat)
    requires i < copies.Length
    modifies copies
    ensures forall k :: 0 <= k < copies.Length ==>
      copies[k] == old(copies[k]) + (if i < k <= i + m then cnt else 0)
  {
    for j := 1 to m + 1
      invariant forall k :: 0 <= k < copies.Length ==>
        copies[k] == old(copies[k]) + (if i < k < i + j then cnt else 0)
    {
      var k := i + j;
      if k < copies.Length {
        copies[k] := copies[k] + cnt;
      }
    }
  }

  /** The copy propagation over match counts: each card's count is final when it is read. */
  method CountCards(ms: seq<nat>) returns (totCards: nat)
    ensures totCards == TotalCopies(ms, |ms|)
    ensures totCards >= |ms|
  {
    var copies := new nat[|ms|](_ => 1);
    totCards := 0;
    for i := 0 to |ms|
      invariant forall k :: 0 <= k < i ==> copies[k] == Copies(ms, k)
      invariant forall k :: i <= k < |ms| ==> copies[k] == 1 + Incoming(ms, k, i)
      invariant totCards == TotalCopies(ms, i)
    {
      var curCnt := copies[i];
      totCards := totCards + curCnt;
      AddCopies(copies, i, ms[i], curCnt);
    }
    TotalAtLeastCards(ms, |ms|);
  }

  function MatchCounts(cards: seq<Card>): (ms: seq<nat>)
    ensures |ms| == |cards| && forall i :: 0 <= i < |cards| ==> ms[i] == Matching(cards[i])
  {
    if cards == [] then [] else MatchCounts(cards[..|cards| - 1]) + [Matching(cards[|cards| - 1])]
  }

  /** Part 2: the total number of cards after propagating copies; None when a line does not parse. */
  method P2(lines: seq<string>) returns (r: Option<nat>)
    ensures r.None? <==> ParseCards(lines).None?
    ensures r.Some? ==> r.value == TotalCopies(MatchCounts(ParseCards(lines).value), |lines|)
    ensures r.Some? ==> r.value >= |lines|
  {
    var parsed := ParseLines(lines);
    if parsed.None? {
      return None;
    }
    var total := CountCards(MatchCounts(parsed.value));
    return Some(total);
  }
}
