/**
 * Day 7: Camel Cards. Hands are ranked by type (five of a kind down to high
 * card), ties broken card by card by strength; the winnings are the sum of
 * each bid times the hand's rank. In part 2 every 'J' is a joker, written
 * 'X', which is the weakest card and joins the most frequent other card.
 */
module D7 {
  import opened Wrappers
  import opened Text

  datatype Ordering = Less | Equal | Greater

  /** A hand and its bid. */
  type Hand = (string, nat)

  // ---------------------------------------------------------------------
  // Card strength
  // ---------------------------------------------------------------------

  /** The cards from weakest to strongest: the source's list, reversed. */
  function Cards(): string
  {
    "X23456789TJQKA"
  }

  /** `get_card_strength`: the position in the reversed list; None where the source panics. */
  function Strength(c: char): (r: Option<nat>)
    ensures r.Some? <==> c in Cards()
    ensures r.Some? ==> r.value < |Cards()| && Cards()[r.value] == c
  {
    if c in Cards() then Some(IndexOf(Cards(), c)) else None
  }

  /** The cards are all different, so each one's strength is its position: the joker 0, the ace 13. */
  lemma StrengthIsPosition(i: nat)
    requires i < |Cards()|
    ensures Strength(Cards()[i]) == Some(i)
  {
    var cards := Cards();
    assert forall p, q :: 0 <= p < q < |cards| ==> cards[p] != cards[q];
  }

  // ---------------------------------------------------------------------
  // Hand type
  // ---------------------------------------------------------------------

  /** The card counts of a hand: the fold that fills `card_ht`. */
  function CountsOf(hand: string): (m: map<char, nat>)
  {
    if hand == [] then map[]
    else
      var init := hand[..|hand| - 1];
      var c := hand[|hand| - 1];
      assert hand == init + [c];
      var m := CountsOf(init);
      m[c := (if c in m then m[c] else 0) + 1]
  }

  /** Each card of the hand is counted as often as it occurs, and no other card is. */
  lemma {:induction false} CountsOfMeaning(hand: string)
    ensures forall c :: c in CountsOf(hand) <==> c in multiset(hand)
    ensures forall c :: c in CountsOf(hand) ==> CountsOf(hand)[c] == multiset(hand)[c]
  {
    if hand != [] {
      var init := hand[..|hand| - 1];
      assert hand == init + [hand[|hand| - 1]];
      CountsOfMeaning(init);
    }
  }

  /** The largest count of a map; 0 for the empty map. */
  ghost predicate IsMax(m: map<char, nat>, v: nat)
  {
    (m == map[] ==> v == 0) && (m != map[] ==> v in m.Values) && forall c :: c in m ==> m[c] <= v
  }

  ghost function MaxOf(m: map<char, nat>): (v: nat)
    ensures IsMax(m, v)
    decreases |m|
  {
    if m == map[] then 0
    else
      var k :| k in m;
      var rest := MaxOf(m - {k});
      assert forall c :: c in m ==> c == k || c in m - {k};
      if m[k] >= rest then m[k]
      else
        assert rest in (m - {k}).Values;
        rest
  }

  lemma MaxUnique(m: map<char, nat>, v: nat, w: nat)
    requires IsMax(m, v) && IsMax(m, w)
    ensures v == w
  {
    if m != map[] {
      var a :| a in m && m[a] == v;
      var b :| b in m && m[b] == w;
    }
  }

  /** The classification of the final counts, whose maximum is mx. */
  function Classify(b: map<char, nat>, mx: nat): (t: nat)
    requires mx >= 1
    ensures mx <= 5 ==> t <= 6
  {
    if mx >= 4 then mx + 1
    else if 3 in b.Values && 2 in b.Values then 4
    else if mx == 3 then 3
    else if |set c | c in b && b[c] == 2| == 2 then 2
    else mx - 1
  }

  /** The jokers join card k. */
  function Bump(rest: map<char, nat>, k: char, jokers: nat): map<char, nat>
    requires k in rest
  {
    rest[k := rest[k] + jokers]
  }

  /** The counts without the jokers, and the number of jokers. */
  function SplitJokers(hand: string): (r: (map<char, nat>, nat))
    ensures forall c :: c in r.0 ==> r.0[c] >= 1
  {
    CountsOfMeaning(hand);
    var m := CountsOf(hand);
    (m - {'X'}, if 'X' in m then m['X'] else 0)
  }

  /** The type when the jokers join the card k, which must hold a maximal count. */
  ghost function TypeWith(hand: string, k: char): nat
    requires var (rest, _) := SplitJokers(hand); k in rest && IsMax(rest, rest[k])
  {
    var (rest, jokers) := SplitJokers(hand);
    var b := Bump(rest, k, jokers);
    MaxBump(rest, k, jokers);
    Classify(b, MaxOf(b))
  }

  lemma MaxBump(rest: map<char, nat>, k: char, jokers: nat)
    requires k in rest && IsMax(rest, rest[k]) && rest[k] >= 1
    ensures IsMax(Bump(rest, k, jokers), rest[k] + jokers) && MaxOf(Bump(rest, k, jokers)) >= 1
  {
    var b := Bump(rest, k, jokers);
    assert b[k] == rest[k] + jokers;
    MaxUnique(b, rest[k] + jokers, MaxOf(b));
  }

  /** `get_hand_type`: 6 for a hand of jokers only, else the classification after the jokers join a most frequent card. */
  ghost function TypeOf(hand: string): nat
  {
    var (rest, jokers) := SplitJokers(hand);
    if rest == map[] then 6 else TypeWith(hand, MaxKey(rest))
  }

  /** Some card holding the largest count. */
  ghost function MaxKey(m: map<char, nat>): (k: char)
    requires m != map[]
    ensures k in m && IsMax(m, m[k])
  {
    var mx := MaxOf(m);
    var k :| k in m && m[k] == mx;
    k
  }

  /** The keys whose count is v: `card_counts` filtered by v. */
  function Holding(b: map<char, nat>, v: nat): set<char>
  {
    set c | c in b && b[c] == v
  }

  /** Which of two most frequent cards the jokers join does not change how many cards hold a count. */
  lemma HoldingSwap(rest: map<char, nat>, k1: char, k2: char, jokers: nat, v: nat)
    requires k1 in rest && k2 in rest && rest[k1] == rest[k2]
    ensures |Holding(Bump(rest, k1, jokers), v)| == |Holding(Bump(rest, k2, jokers), v)|
  {
    var b1, b2 := Bump(rest, k1, jokers), Bump(rest, k2, jokers);
    if k1 != k2 && jokers > 0 {
      var s1, s2 := Holding(b1, v), Holding(b2, v);
      var x := {k1, k2};
      CommonPart(rest, k1, k2, jokers, v);
      assert |s1 - x| == |s2 - x|;
      SplitSize(s1, x);
      SplitSize(s2, x);
      assert |s1 * x| == |s2 * x| by {
        PairSize(rest[k1], jokers, v, k1, k2, s1 * x, s2 * x);
      }
    } else {
      assert b1 == b2;
    }
  }

  lemma CommonPart(rest: map<char, nat>, k1: char, k2: char, jokers: nat, v: nat)
    requires k1 in rest && k2 in rest
    ensures Holding(Bump(rest, k1, jokers), v) - {k1, k2} == Holding(Bump(rest, k2, jokers), v) - {k1, k2}
  {
  }

  lemma SplitSize(s: set<char>, x: set<char>)
    ensures |s| == |s - x| + |s * x|
  {
    assert s == (s - x) + (s * x);
  }

  lemma PairSize(m: nat, jokers: nat, v: nat, k1: char, k2: char, e1: set<char>, e2: set<char>)
    requires k1 != k2 && jokers > 0
    requires e1 <= {k1, k2} && e2 <= {k1, k2}
    requires k1 in e1 <==> m + jokers == v
    requires k2 in e1 <==> m == v
    requires k1 in e2 <==> m == v
    requires k2 in e2 <==> m + jokers == v
    ensures |e1| == |e2|
  {
    if v == m {
      assert e1 == {k2} && e2 == {k1};
    } else if v == m + jokers {
      assert e1 == {k1} && e2 == {k2};
    } else {
      assert e1 == {} && e2 == {};
    }
  }

  /** Either bumped map holds the same counts. */
  lemma ValuesSwap(rest: map<char, nat>, k1: char, k2: char, jokers: nat, v: nat)
    requires k1 in rest && k2 in rest && rest[k1] == rest[k2]
    ensures v in Bump(rest, k1, jokers).Values ==> v in Bump(rest, k2, jokers).Values
  {
    var b1, b2 := Bump(rest, k1, jokers), Bump(rest, k2, jokers);
    if v in b1.Values {
      var c :| c in b1 && b1[c] == v;
      var d := if c == k1 then k2 else if c == k2 then k1 else c;
      assert b2[d] == v;
    }
  }

  /** The type does not depend on which most frequent card the jokers join (the source's map order). */
  lemma TypeWithIndependent(hand: string, k1: char, k2: char)
    requires var (rest, _) := SplitJokers(hand); k1 in rest && IsMax(rest, rest[k1])
    requires var (rest, _) := SplitJokers(hand); k2 in rest && IsMax(rest, rest[k2])
    ensures TypeWith(hand, k1) == TypeWith(hand, k2)
  {
    var (rest, jokers) := SplitJokers(hand);
    MaxUnique(rest, rest[k1], rest[k2]);
    var b1, b2 := Bump(rest, k1, jokers), Bump(rest, k2, jokers);
    MaxBump(rest, k1, jokers);
    MaxBump(rest, k2, jokers);
    MaxUnique(b1, rest[k1] + jokers, MaxOf(b1));
    MaxUnique(b2, rest[k2] + jokers, MaxOf(b2));
    HoldingSwap(rest, k1, k2, jokers, 2);
    ValuesSwap(rest, k1, k2, jokers, 2);
    ValuesSwap(rest, k2, k1, jokers, 2);
    ValuesSwap(rest, k1, k2, jokers, 3);
    ValuesSwap(rest, k2, k1, jokers, 3);
    assert Holding(b1, 2) == set c | c in b1 && b1[c] == 2;
  }

  /** The largest value of a map, by a loop over its keys (`values().max()`, 0 when empty). */
  method MaxCount(m: map<char, nat>) returns (mx: nat)
    ensures IsMax(m, mx)
  {
    mx := 0;
    var left := m.Keys;
    while left != {}
      invariant left <= m.Keys
      invariant forall c :: c in m && c !in left ==> m[c] <= mx
      invariant mx == 0 || exists c :: c in m && m[c] == mx
      invariant m != map[] && left == {} ==> mx in m.Values
      decreases |left|
    {
      var c :| c in left;
      if m[c] > mx {
        mx := m[c];
      }
      left := left - {c};
    }
    if m != map[] && mx == 0 {
      var c :| c in m;
    }
  }

  /** The fold that counts the cards into `card_ht`. */
  method CountCards(hand: string) returns (counts: map<char, nat>)
    ensures counts == CountsOf(hand)
  {
    counts := map[];
    for i := 0 to |hand|
      invariant counts == CountsOf(hand[..i])
    {
      assert hand[..i + 1][..i] == hand[..i];
      counts := counts[hand[i] := (if hand[i] in counts then counts[hand[i]] else 0) + 1];
    }
    assert hand[..|hand|] == hand;
  }

  /** The loop that adds the jokers to the first card met whose count is the maximum mx. */
  method AddJokers(rest: map<char, nat>, mx: nat, jokers: nat) returns (b: map<char, nat>, ghost k: char)
    requires exists c :: c in rest && rest[c] == mx
    ensures k in rest && rest[k] == mx && b == Bump(rest, k, jokers)
  {
    k :| k in rest && rest[k] == mx;
    b := rest;
    if jokers > 0 {
      var keys := rest.Keys;
      var found := false;
      while !found
        invariant keys <= rest.Keys
        invariant !found ==> b == rest && exists c :: c in keys && rest[c] == mx
        invariant found ==> k in rest && rest[k] == mx && b == Bump(rest, k, jokers)
        decreases |keys|, if found then 0 else 1
      {
        var c :| c in keys;
        if b[c] == mx {
          b := b[c := b[c] + jokers];
          k := c;
          found := true;
        } else {
          keys := keys - {c};
        }
      }
    }
  }

  /** `get_hand_type`: counts the cards, takes the jokers out and adds them to a most frequent card. */
  method HandType(hand: string) returns (t: nat)
    ensures t == TypeOf(hand)
  {
    var counts := CountCards(hand);
    var jokers := if 'X' in counts then counts['X'] else 0;
    var rest := counts - {'X'};
    assert (rest, jokers) == SplitJokers(hand);
    var mx0 := MaxCount(rest);
    MaxUnique(rest, mx0, MaxOf(rest));
    if mx0 == 0 {
      return 6;
    }
    var b, k := AddJokers(rest, mx0, jokers);
    MaxBump(rest, k, jokers);
    var mx := MaxCount(b);
    MaxUnique(b, mx, MaxOf(b));
    t := Classify(b, mx);
    TypeWithIndependent(hand, k, MaxKey(rest));
  }

  /** Two different cards together occur at most as often as the hand is long. */
  lemma {:induction false} TwoCounts(s: string, a: char, b: char)
    requires a != b
    ensures multiset(s)[a] + multiset(s)[b] <= |s|
  {
    if s != [] {
      assert s == [s[0]] + s[1..];
      TwoCounts(s[1..], a, b);
    }
  }

  /** A hand of at most five cards has a type in 0..=6, and a hand of jokers only is five of a kind. */
  lemma TypeBound(hand: string)
    requires |hand| <= 5
    ensures TypeOf(hand) <= 6
    ensures (forall i :: 0 <= i < |hand| ==> hand[i] == 'X') ==> TypeOf(hand) == 6
  {
    var (rest, jokers) := SplitJokers(hand);
    if rest != map[] {
      var k := MaxKey(rest);
      MaxBump(rest, k, jokers);
      var b := Bump(rest, k, jokers);
      MaxUnique(b, rest[k] + jokers, MaxOf(b));
      CountsOfMeaning(hand);
      TwoCounts(hand, k, 'X');
      assert k in hand;
    }
  }

  // ---------------------------------------------------------------------
  // The comparator
  // ---------------------------------------------------------------------

  /** `usize::cmp`. */
  function Cmp(x: nat, y: nat): (o: Ordering)
    ensures o == Equal <==> x == y
    ensures o == Less <==> x < y
  {
    if x < y then Less else if x > y then Greater else Equal
  }

  function Flip(o: Ordering): Ordering
  {
    match o
    case Less => Greater
    case Equal => Equal
    case Greater => Less
  }

  function FlipOpt(o: Option<Ordering>): Option<Ordering>
  {
    match o
    case None => None
    case Some(v) => Some(Flip(v))
  }

  /** Every card of the hand is one the comparator knows. */
  predicate ValidCards(s: string)
  {
    forall i :: 0 <= i < |s| ==> s[i] in Cards()
  }

  /** The card-by-card loop over the zipped hands; None where a strength lookup panics. */
  function CompareCards(a: string, b: string): (r: Option<Ordering>)
    ensures ValidCards(a) && ValidCards(b) ==> r.Some?
    decreases |a|
  {
    if a == [] || b == [] then Some(Equal)
    else match (Strength(a[0]), Strength(b[0]))
      case (Some(x), Some(y)) => if x != y then Some(Cmp(x, y)) else CompareCards(a[1..], b[1..])
      case _ => None
  }

  /** The two hands agree on their common length and those cards are all known. */
  predicate Tied(a: string, b: string)
  {
    var n := if |a| < |b| then |a| else |b|;
    a[..n] == b[..n] && ValidCards(a[..n])
  }

  lemma TiedCons(a: string, b: string)
    requires a != [] && b != []
    ensures Tied(a, b) <==> a[0] == b[0] && a[0] in Cards() && Tied(a[1..], b[1..])
  {
    var n := if |a| < |b| then |a| else |b|;
    var ta, tb := a[1..][..n - 1], b[1..][..n - 1];
    assert Tied(a[1..], b[1..]) <==> ta == tb && ValidCards(ta);
    assert a[..n] == [a[0]] + ta;
    assert b[..n] == [b[0]] + tb;
    if a[..n] == b[..n] {
      assert a[..n][0] == b[..n][0] && a[..n][1..] == b[..n][1..];
      assert ([a[0]] + ta)[1..] == ta && ([b[0]] + tb)[1..] == tb;
    }
    ValidCardsCons(a[0], ta);
  }

  lemma ValidCardsCons(c: char, s: string)
    ensures ValidCards([c] + s) <==> c in Cards() && ValidCards(s)
  {
    var t := [c] + s;
    if ValidCards(t) {
      assert t[0] == c;
      forall i | 0 <= i < |s| ensures s[i] in Cards() {
        assert s[i] == t[i + 1];
      }
    }
  }

  lemma {:induction false} CompareCardsEqual(a: string, b: string)
    ensures CompareCards(a, b) == Some(Equal) <==> Tied(a, b)
    decreases |a|
  {
    if a != [] && b != [] {
      CompareCardsEqual(a[1..], b[1..]);
      TiedCons(a, b);
    }
  }

  lemma {:induction false} CompareCardsFlip(a: string, b: string)
    ensures CompareCards(b, a) == FlipOpt(CompareCards(a, b))
    decreases |a|
  {
    if a != [] && b != [] {
      CompareCardsFlip(a[1..], b[1..]);
    }
  }

  /** Hands of types ta and tb: the types first, then the cards one by one. */
  function Lex(ta: nat, tb: nat, a: string, b: string): Option<Ordering>
  {
    if ta != tb then Some(Cmp(ta, tb)) else CompareCards(a, b)
  }

  /** `sort_hands_key`. */
  ghost function Compare(a: string, b: string): Option<Ordering>
  {
    Lex(TypeOf(a), TypeOf(b), a, b)
  }

  /** The comparator says Equal exactly when the types tie and so does every compared card. */
  lemma CompareEqual(a: string, b: string)
    ensures Compare(a, b) == Some(Equal) <==> TypeOf(a) == TypeOf(b) && Tied(a, b)
  {
    CompareCardsEqual(a, b);
  }

  /** Swapping the hands flips the answer, panics included. */
  lemma CompareFlip(a: string, b: string)
    ensures Compare(b, a) == FlipOpt(Compare(a, b))
  {
    CompareCardsFlip(a, b);
  }

  /** The comparator's loop, with an early return at the first unequal card. */
  method CompareHands(a: string, b: string) returns (r: Option<Ordering>)
    ensures r == Compare(a, b)
  {
    var ta := HandType(a);
    var tb := HandType(b);
    if ta != tb {
      return Some(Cmp(ta, tb));
    }
    var n := if |a| < |b| then |a| else |b|;
    for i := 0 to n
      invariant CompareCards(a, b) == CompareCards(a[i..], b[i..])
    {
      var x := Strength(a[i]);
      var y := Strength(b[i]);
      if x.None? || y.None? {
        return None;
      }
      if x.value != y.value {
        return Some(Cmp(x.value, y.value));
      }
      assert a[i..][1..] == a[i + 1..] && b[i..][1..] == b[i + 1..];
    }
    return Some(Equal);
  }

  // ---------------------------------------------------------------------
  // Sorting
  // ---------------------------------------------------------------------

  /** A hand of n known cards: on such hands the comparator is a total order. */
  predicate ValidHand(h: Hand, n: nat)
  {
    |h.0| == n && ValidCards(h.0)
  }

  /**
   * x is at most y when hands of rank `rank` are compared like `sort_hands_key`:
   * the ranks first, then the cards. The source's rank is the hand type.
   */
  ghost predicate Le(rank: string -> nat, x: Hand, y: Hand)
  {
    Lex(rank(x.0), rank(y.0), x.0, y.0) != Some(Greater)
  }

  lemma {:induction false} CompareCardsTrans(a: string, b: string, c: string)
    requires |a| == |b| == |c| && ValidCards(a) && ValidCards(b) && ValidCards(c)
    requires CompareCards(a, b) != Some(Greater) && CompareCards(b, c) != Some(Greater)
    ensures CompareCards(a, c) != Some(Greater)
    decreases |a|
  {
    if a != [] {
      assert ValidCards(a[1..]) && ValidCards(b[1..]) && ValidCards(c[1..]);
      var x, y, z := Strength(a[0]).value, Strength(b[0]).value, Strength(c[0]).value;
      assert CompareCards(a, b) == if x != y then Some(Cmp(x, y)) else CompareCards(a[1..], b[1..]);
      assert CompareCards(b, c) == if y != z then Some(Cmp(y, z)) else CompareCards(b[1..], c[1..]);
      assert CompareCards(a, c) == if x != z then Some(Cmp(x, z)) else CompareCards(a[1..], c[1..]);
      if x == y == z {
        CompareCardsTrans(a[1..], b[1..], c[1..]);
      }
    }
  }

  /** On hands of n known cards the order never panics, flips with its arguments and ties only on equal hands. */
  lemma LexFacts(ta: nat, tb: nat, a: string, b: string, n: nat)
    requires |a| == |b| == n && ValidCards(a) && ValidCards(b)
    ensures Lex(ta, tb, a, b).Some?
    ensures Lex(tb, ta, b, a) == FlipOpt(Lex(ta, tb, a, b))
    ensures Lex(ta, tb, a, b) == Some(Equal) ==> a == b
  {
    CompareCardsFlip(a, b);
    CompareCardsEqual(a, b);
    assert a[..n] == a && b[..n] == b;
  }

  lemma LexRefl(t: nat, a: string)
    requires ValidCards(a)
    ensures Lex(t, t, a, a) == Some(Equal)
  {
    CompareCardsEqual(a, a);
    assert a[..|a|] == a;
  }

  lemma LexTrans(ta: nat, tb: nat, tc: nat, a: string, b: string, c: string)
    requires |a| == |b| == |c| && ValidCards(a) && ValidCards(b) && ValidCards(c)
    requires Lex(ta, tb, a, b) != Some(Greater) && Lex(tb, tc, b, c) != Some(Greater)
    ensures Lex(ta, tc, a, c) != Some(Greater)
  {
    if ta == tb == tc {
      CompareCardsTrans(a, b, c);
    }
  }

  /** On hands of n known cards the comparator never panics, is total, reflexive and antisymmetric. */
  lemma LeFacts(rank: string -> nat, x: Hand, y: Hand, n: nat)
    requires ValidHand(x, n) && ValidHand(y, n)
    ensures Lex(rank(x.0), rank(y.0), x.0, y.0).Some?
    ensures Le(rank, x, x)
    ensures Le(rank, x, y) || Le(rank, y, x)
    ensures Le(rank, x, y) && Le(rank, y, x) ==> x.0 == y.0
  {
    LexFacts(rank(x.0), rank(y.0), x.0, y.0, n);
    LexRefl(rank(x.0), x.0);
  }

  lemma LeTrans(rank: string -> nat, x: Hand, y: Hand, z: Hand, n: nat)
    requires ValidHand(x, n) && ValidHand(y, n) && ValidHand(z, n)
    requires Le(rank, x, y) && Le(rank, y, z)
    ensures Le(rank, x, z)
  {
    LexTrans(rank(x.0), rank(y.0), rank(z.0), x.0, y.0, z.0);
  }

  /** Each hand in s[lo..hi] is at most the next one. */
  ghost predicate ChainedIn(rank: string -> nat, s: seq<Hand>, lo: nat, hi: nat)
    requires lo <= hi <= |s|
  {
    forall k :: lo < k < hi ==> Le(rank, s[k - 1], s[k])
  }

  /** Each hand is at most every later one: ascending by the comparator. */
  ghost predicate SortedBy(rank: string -> nat, s: seq<Hand>)
  {
    forall i, j :: 0 <= i < j < |s| ==> Le(rank, s[i], s[j])
  }

  predicate AllValid(s: seq<Hand>, n: nat)
  {
    forall i :: 0 <= i < |s| ==> ValidHand(s[i], n)
  }

  lemma {:induction false} ChainedPair(rank: string -> nat, s: seq<Hand>, n: nat, i: nat, j: nat)
    requires AllValid(s, n) && ChainedIn(rank, s, 0, |s|) && i < j < |s|
    ensures Le(rank, s[i], s[j])
    decreases j - i
  {
    if i + 1 < j {
      ChainedPair(rank, s, n, i, j - 1);
      LeTrans(rank, s[i], s[j - 1], s[j], n);
    }
  }

  lemma ChainedIsSorted(rank: string -> nat, s: seq<Hand>, n: nat)
    requires AllValid(s, n) && ChainedIn(rank, s, 0, |s|)
    ensures SortedBy(rank, s)
  {
    forall i, j | 0 <= i < j < |s|
      ensures Le(rank, s[i], s[j])
    {
      ChainedPair(rank, s, n, i, j);
    }
  }

  /** One swap of the insertion keeps both sorted runs and the link around the gap. */
  lemma SwapStep(rank: string -> nat, s: seq<Hand>, t: seq<Hand>, n: nat, i: nat, j: nat)
    requires AllValid(s, n) && 0 < j <= i < |s|
    requires ChainedIn(rank, s, 0, j) && ChainedIn(rank, s, j, i + 1)
    requires j < i ==> Le(rank, s[j - 1], s[j + 1])
    requires !Le(rank, s[j - 1], s[j])
    requires t == s[j - 1 := s[j]][j := s[j - 1]]
    ensures ChainedIn(rank, t, 0, j - 1) && ChainedIn(rank, t, j - 1, i + 1)
    ensures 0 < j - 1 ==> Le(rank, t[j - 2], t[j])
  {
    LeFacts(rank, s[j - 1], s[j], n);
    forall k | j + 1 < k < i + 1
      ensures Le(rank, t[k - 1], t[k])
    {
      assert t[k - 1] == s[k - 1] && t[k] == s[k];
    }
  }

  /** The two sorted runs join once the gap is closed. */
  lemma JoinRuns(rank: string -> nat, s: seq<Hand>, i: nat, j: nat)
    requires j <= i < |s|
    requires ChainedIn(rank, s, 0, j) && ChainedIn(rank, s, j, i + 1)
    requires 0 < j ==> Le(rank, s[j - 1], s[j])
    ensures ChainedIn(rank, s, 0, i + 1)
  {
  }

  /** Moves a[i] down past every greater hand, so that a[..i + 1] is sorted. */
  method Insert(a: array<Hand>, i: nat, ghost n: nat)
    requires i < a.Length && AllValid(a[..], n) && ChainedIn(TypeOf, a[..], 0, i)
    modifies a
    ensures multiset(a[..]) == multiset(old(a[..])) && AllValid(a[..], n)
    ensures ChainedIn(TypeOf, a[..], 0, i + 1)
  {
    var j := i;
    while j > 0
      invariant 0 <= j <= i
      invariant multiset(a[..]) == multiset(old(a[..]))
      invariant AllValid(a[..], n)
      invariant ChainedIn(TypeOf, a[..], 0, j) && ChainedIn(TypeOf, a[..], j, i + 1)
      invariant j < i && 0 < j ==> Le(TypeOf, a[j - 1], a[j + 1])
    {
      var o := CompareHands(a[j - 1].0, a[j].0);
      if o != Some(Greater) {
        break;
      }
      ghost var before := a[..];
      a[j - 1], a[j] := a[j], a[j - 1];
      SwapStep(TypeOf, before, a[..], n, i, j);
      SwapMultiset(before, a[..], j);
      j := j - 1;
    }
    JoinRuns(TypeOf, a[..], i, j);
  }

  lemma SwapMultiset(s: seq<Hand>, t: seq<Hand>, j: nat)
    requires 0 < j < |s| && t == s[j - 1 := s[j]][j := s[j - 1]]
    ensures multiset(t) == multiset(s)
  {
  }

  /** `sort_hands`: a copy of the hands, sorted in place (here by insertion). */
  method SortHands(hands: seq<Hand>, ghost n: nat) returns (sorted: seq<Hand>)
    requires AllValid(hands, n)
    ensures SortedBy(TypeOf, sorted) && multiset(sorted) == multiset(hands)
  {
    var a := new Hand[|hands|](i requires 0 <= i < |hands| => hands[i]);
    assert a[..] == hands;
    for i := 0 to a.Length
      invariant multiset(a[..]) == multiset(hands)
      invariant AllValid(a[..], n)
      invariant ChainedIn(TypeOf, a[..], 0, i)
    {
      Insert(a, i, n);
    }
    sorted := a[..];
    ChainedIsSorted(TypeOf, sorted, n);
  }

  /** A ranking: the hands in ascending order, each kept with its bid. */
  ghost predicate IsRanking(s: seq<Hand>, hands: seq<Hand>)
  {
    SortedBy(TypeOf, s) && multiset(s) == multiset(hands)
  }

  /** No two hands hold the same cards with different bids. */
  predicate Distinct(hands: seq<Hand>)
  {
    forall i, j :: 0 <= i < |hands| && 0 <= j < |hands| && hands[i].0 == hands[j].0 ==> hands[i] == hands[j]
  }

  /** Two rankings of the same distinct hands of n known cards are the same sequence. */
  lemma {:induction false} RankingUnique(rank: string -> nat, r1: seq<Hand>, r2: seq<Hand>, n: nat)
    requires AllValid(r1, n) && Distinct(r1)
    requires SortedBy(rank, r1) && SortedBy(rank, r2) && multiset(r1) == multiset(r2)
    ensures r1 == r2
  {
    if r1 == [] {
      assert |multiset(r2)| == 0;
    } else {
      SameHead(rank, r1, r2, n);
      TailMultiset(r1);
      TailMultiset(r2);
      SortedTail(rank, r1);
      SortedTail(rank, r2);
      assert AllValid(r1[1..], n) && Distinct(r1[1..]);
      RankingUnique(rank, r1[1..], r2[1..], n);
      assert r1 == [r1[0]] + r1[1..] && r2 == [r2[0]] + r2[1..];
    }
  }

  /** Both rankings start with the least hand. */
  lemma SameHead(rank: string -> nat, r1: seq<Hand>, r2: seq<Hand>, n: nat)
    requires AllValid(r1, n) && Distinct(r1) && r1 != []
    requires SortedBy(rank, r1) && SortedBy(rank, r2) && multiset(r1) == multiset(r2)
    ensures r2 != [] && r1[0] == r2[0]
  {
    assert |multiset(r2)| == |r1|;
    assert r1[0] in multiset(r2);
    var j :| 0 <= j < |r2| && r2[j] == r1[0];
    assert r2[0] in multiset(r1);
    var i :| 0 <= i < |r1| && r1[i] == r2[0];
    assert ValidHand(r2[0], n);
    LeFacts(rank, r1[0], r2[0], n);
    assert Le(rank, r1[0], r1[i]);
    assert Le(rank, r2[0], r2[j]);
  }

  lemma SortedTail(rank: string -> nat, s: seq<Hand>)
    requires s != [] && SortedBy(rank, s)
    ensures SortedBy(rank, s[1..])
  {
    forall i, j | 0 <= i < j < |s| - 1
      ensures Le(rank, s[1..][i], s[1..][j])
    {
      assert s[1..][i] == s[i + 1] && s[1..][j] == s[j + 1];
    }
  }

  lemma TailMultiset(s: seq<Hand>)
    requires s != []
    ensures multiset(s[1..]) == multiset(s) - multiset{s[0]}
  {
    assert s == [s[0]] + s[1..];
  }

  // ---------------------------------------------------------------------
  // Winnings
  // ---------------------------------------------------------------------

  /** Each bid times its 1-based rank, summed. */
  function Winnings(s: seq<Hand>): nat
  {
    if s == [] then 0 else Winnings(s[..|s| - 1]) + s[|s| - 1].1 * |s|
  }

  function BidSum(s: seq<Hand>): nat
  {
    if s == [] then 0 else BidSum(s[..|s| - 1]) + s[|s| - 1].1
  }

  /** Putting s below t lifts every rank of t by |s|. */
  lemma {:induction false} WinningsAppend(s: seq<Hand>, t: seq<Hand>)
    ensures Winnings(s + t) == Winnings(s) + Winnings(t) + |s| * BidSum(t)
  {
    if t != [] {
      var t0 := t[..|t| - 1];
      assert (s + t)[..|s + t| - 1] == s + t0;
      WinningsAppend(s, t0);
      Regroup(Winnings(s), Winnings(t0), BidSum(t0), t[|t| - 1].1, |s|, |t|);
    } else {
      assert s + t == s;
    }
  }

  lemma Regroup(ws: int, wt: int, bt: int, h: int, a: int, b: int)
    ensures (ws + wt + a * bt) + h * (a + b) == ws + (wt + h * b) + a * (bt + h)
  {
  }

  /** `get_total_winnings`: the fold with its running rank. */
  method GetTotalWinnings(sorted: seq<Hand>) returns (r: nat)
    ensures r == Winnings(sorted)
  {
    var idx := 0;
    r := 0;
    for i := 0 to |sorted|
      invariant idx == i && r == Winnings(sorted[..i])
    {
      assert sorted[..i + 1][..i] == sorted[..i];
      idx := idx + 1;
      r := r + sorted[i].1 * idx;
    }
    assert sorted[..|sorted|] == sorted;
  }

  /** The winnings of distinct hands do not depend on which ranking the sort produced. */
  lemma WinningsDetermined(hands: seq<Hand>, s1: seq<Hand>, s2: seq<Hand>, n: nat)
    requires AllValid(hands, n) && Distinct(hands)
    requires IsRanking(s1, hands) && IsRanking(s2, hands)
    ensures Winnings(s1) == Winnings(s2)
  {
    forall k | 0 <= k < |s1|
      ensures ValidHand(s1[k], n) && exists p :: 0 <= p < |hands| && hands[p] == s1[k]
    {
      assert s1[k] in multiset(hands);
    }
    RankingUnique(TypeOf, s1, s2, n);
  }

  // ---------------------------------------------------------------------
  // Parsing and the two parts
  // ---------------------------------------------------------------------

  /** With jokers on, every 'J' becomes 'X' and every other card stays. */
  function Jokered(hand: string): (r: string)
    ensures |r| == |hand|
    ensures forall i :: 0 <= i < |hand| ==> r[i] == (if hand[i] == 'J' then 'X' else hand[i])
  {
    if hand == [] then [] else [if hand[0] == 'J' then 'X' else hand[0]] + Jokered(hand[1..])
  }

  /** A line "<hand> <bid>"; None where the source unwraps a missing token or a bad number. */
  function ParseLine(line: string, joker: bool): Option<Hand>
  {
    var tokens := SplitWhitespace(line);
    if |tokens| < 2 then None
    else match ParseNat(tokens[1])
      case None => None
      case Some(bid) => Some((if joker then Jokered(tokens[0]) else tokens[0], bid))
  }

  /** `parse_lines`: every line must parse. */
  function ParseLines(lines: seq<string>, joker: bool): (r: Option<seq<Hand>>)
    ensures r.Some? <==> forall i :: 0 <= i < |lines| ==> ParseLine(lines[i], joker).Some?
    ensures r.Some? ==> |r.value| == |lines| && forall i :: 0 <= i < |lines| ==> ParseLine(lines[i], joker) == Some(r.value[i])
  {
    if lines == [] then Some([])
    else match (ParseLine(lines[0], joker), ParseLines(lines[1..], joker))
      case (Some(h), Some(hs)) => Some([h] + hs)
      case _ => None
  }

  /** All hands hold the same number of known cards, so the comparator is a total order on them. */
  predicate Comparable(hands: seq<Hand>)
  {
    hands == [] || AllValid(hands, |hands[0].0|)
  }

  /** `p1` (joker false) and `p2` (joker true): parse, sort, and sum the winnings. */
  method Solve(lines: seq<string>, joker: bool) returns (r: Option<nat>)
    ensures r.Some? <==> ParseLines(lines, joker).Some? && Comparable(ParseLines(lines, joker).value)
    ensures r.Some? ==> exists s :: IsRanking(s, ParseLines(lines, joker).value) && r.value == Winnings(s)
  {
    var parsed := ParseLines(lines, joker);
    if parsed.None? || !Comparable(parsed.value) {
      return None;
    }
    var hands := parsed.value;
    var n := if hands == [] then 0 else |hands[0].0|;
    var sorted := SortHands(hands, n);
    var w := GetTotalWinnings(sorted);
    r := Some(w);
  }

  method P1(lines: seq<string>) returns (r: Option<nat>)
    ensures r.Some? <==> ParseLines(lines, false).Some? && Comparable(ParseLines(lines, false).value)
    ensures r.Some? ==> exists s :: IsRanking(s, ParseLines(lines, false).value) && r.value == Winnings(s)
  {
    r := Solve(lines, false);
  }

  method P2(lines: seq<string>) returns (r: Option<nat>)
    ensures r.Some? <==> ParseLines(lines, true).Some? && Comparable(ParseLines(lines, true).value)
    ensures r.Some? ==> exists s :: IsRanking(s, ParseLines(lines, true).value) && r.value == Winnings(s)
  {
    r := Solve(lines, true);
  }
}
