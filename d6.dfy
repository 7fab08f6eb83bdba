/**
 * Day 6: boat races. Holding the button for h of a race's t milliseconds
 * gives the distance h·(t-h); a race counts the holds in 0..t that beat
 * the record distance. The source finds the least winning hold in the
 * rising half [0, t/2] by binary search and mirrors it.
 */
module D6 {
  import opened Wrappers
  import opened Text

  /** `compute_dist`: the distance travelled after holding for `hold` of `time`. */
  function Dist(hold: int, time: int): int
  {
    hold * (time - hold)
  }

  predicate Beats(t: nat, d: int, h: int)
  {
    Dist(h, t) > d
  }

  /** Holding h or t-h goes equally far. */
  lemma DistSymmetric(t: int, h: int)
    ensures Dist(h, t) == Dist(t - h, t)
  {
  }

  lemma DistStep(t: int, h: int)
    ensures Dist(h + 1, t) == Dist(h, t) + t - 2 * h - 1
  {
    assert (h + 1) * (t - h - 1) == h * (t - h) + (t - h) - h - 1;
  }

  /** On the rising half [0, t/2] a longer hold goes strictly further. */
  lemma {:induction false} DistMonotone(t: nat, a: int, b: int)
    requires 0 <= a <= b <= t / 2
    ensures Dist(a, t) <= Dist(b, t)
    ensures a < b ==> Dist(a, t) < Dist(b, t)
    decreases b - a
  {
    if a < b {
      DistMonotone(t, a, b - 1);
      DistStep(t, b - 1);
    }
  }

  /** The two middle holds tie exactly when t is odd. */
  lemma NearEnd(t: nat)
    ensures Dist(t / 2, t) == Dist(t / 2 + 1, t) <==> t % 2 == 1
  {
    DistStep(t, t / 2);
  }

  /** The least winning hold in h .. t/2, or t/2 + 1 when none wins. */
  function ThresholdFrom(t: nat, d: int, h: nat): (m: nat)
    requires h <= t / 2 + 1
    ensures h <= m <= t / 2 + 1
    decreases t / 2 + 1 - h
  {
    if h == t / 2 + 1 || Beats(t, d, h) then h else ThresholdFrom(t, d, h + 1)
  }

  function Threshold(t: nat, d: int): nat
  {
    ThresholdFrom(t, d, 0)
  }

  lemma {:induction false} ThresholdFromLeast(t: nat, d: int, h: nat)
    requires h <= t / 2 + 1
    ensures forall x :: h <= x < ThresholdFrom(t, d, h) ==> !Beats(t, d, x)
    ensures ThresholdFrom(t, d, h) <= t / 2 ==> Beats(t, d, ThresholdFrom(t, d, h))
    decreases t / 2 + 1 - h
  {
    if h < t / 2 + 1 && !Beats(t, d, h) {
      ThresholdFromLeast(t, d, h + 1);
    }
  }

  /** In the rising half, exactly the holds from the threshold on win. */
  lemma ThresholdSplits(t: nat, d: int, h: int)
    requires 0 <= h <= t / 2
    ensures Beats(t, d, h) <==> Threshold(t, d) <= h
  {
    var m := Threshold(t, d);
    ThresholdFromLeast(t, d, 0);
    if m <= h {
      DistMonotone(t, m, h);
    }
  }

  /** Over the whole race, exactly the holds in [m, t-m] win, m the threshold. */
  lemma BeatsInterval(t: nat, d: int, h: int)
    requires 0 <= h <= t
    ensures Beats(t, d, h) <==> Threshold(t, d) <= h <= t - Threshold(t, d)
  {
    var m := Threshold(t, d);
    if h <= t / 2 {
      ThresholdSplits(t, d, h);
    } else {
      DistSymmetric(t, h);
      ThresholdSplits(t, d, t - h);
    }
  }

  /** Any split point of the rising half is the threshold. */
  lemma ThresholdUnique(t: nat, d: int, m: int)
    requires 0 <= m <= t / 2 + 1
    requires forall h :: 0 <= h <= t / 2 ==> (Beats(t, d, h) <==> m <= h)
    ensures m == Threshold(t, d)
  {
    var th := Threshold(t, d);
    if th < m {
      ThresholdSplits(t, d, th);
    } else if m < th {
      ThresholdSplits(t, d, m);
    }
  }

  /** The number of winning holds among 0 .. n-1. */
  function CountBeats(t: nat, d: int, n: nat): nat
  {
    if n == 0 then 0 else CountBeats(t, d, n - 1) + (if Beats(t, d, n - 1) then 1 else 0)
  }

  /** The number of ways to beat the record: winning holds among 0 .. t. */
  function NumWays(t: nat, d: int): nat
  {
    CountBeats(t, d, t + 1)
  }

  lemma {:induction false} CountInterval(t: nat, d: int, m: nat, n: nat)
    requires n <= t + 1 && m == Threshold(t, d)
    ensures CountBeats(t, d, n) == if n <= m || t - m < m then 0 else if n <= t - m + 1 then n - m else t - 2 * m + 1
  {
    if n > 0 {
      CountInterval(t, d, m, n - 1);
      BeatsInterval(t, d, n - 1);
      var won := if Beats(t, d, n - 1) then 1 else 0;
      assert won == 1 <==> m <= n - 1 <= t - m;
      assert CountBeats(t, d, n) == CountBeats(t, d, n - 1) + won;
    }
  }

  /** The ways to win are t - 2m + 1 for threshold m in the rising half, and none otherwise. */
  lemma NumWaysByThreshold(t: nat, d: int)
    ensures Threshold(t, d) <= t / 2 ==> NumWays(t, d) == t - 2 * Threshold(t, d) + 1
    ensures Threshold(t, d) > t / 2 ==> NumWays(t, d) == 0
  {
    CountInterval(t, d, Threshold(t, d), t + 1);
  }

  /** The binary search and its adjustment: the least winning hold of the rising half. */
  method SearchThreshold(time: nat, dist: int) returns (mid: int)
    ensures mid == Threshold(time, dist)
  {
    var left, right := 0, time / 2;
    mid := -1;
    var found := false;
    while left <= right
      invariant 0 <= left && right <= time / 2 && left <= right + 1
      invariant left == 0 || Dist(left - 1, time) < dist
      invariant right == time / 2 || Dist(right + 1, time) > dist
      invariant mid == -1 ==> left == 0 && right == time / 2
      invariant mid != -1 ==> 0 <= mid <= time / 2 && (mid == left - 1 || mid == right + 1)
      invariant mid != -1 && mid == left - 1 ==> Dist(mid, time) < dist
      invariant mid != -1 && mid == right + 1 ==> Dist(mid, time) > dist
      decreases right - left
    {
      mid := left + (right - left) / 2;
      var c := Dist(mid, time);
      if c < dist {
        left := mid + 1;
      } else if c > dist {
        right := mid - 1;
      } else {
        found := true;
        break;
      }
    }
    if found {
      // the loop stopped at a hold that ties the record
      assert 0 <= mid <= time / 2 && Dist(mid, time) == dist;
      forall h | 0 <= h <= time / 2
        ensures Beats(time, dist, h) <==> mid + 1 <= h
      {
        if h <= mid {
          DistMonotone(time, h, mid);
        } else {
          DistMonotone(time, mid, h);
        }
      }
    } else {
      forall h | 0 <= h <= time / 2
        ensures Beats(time, dist, h) <==> left <= h
      {
        if h < left {
          DistMonotone(time, h, left - 1);
        } else {
          DistMonotone(time, right + 1, h);
        }
      }
    }
    if Dist(mid, time) <= dist {
      mid := mid + 1;
    }
    ThresholdUnique(time, dist, mid);
  }

  /** The source's count from the threshold m: 2·(t/2 - m), plus 2 when the middle holds tie, else 1. */
  function SourceWays(t: nat, m: int): int
  {
    (t / 2 - m) * 2 + (if Dist(t / 2, t) == Dist(t / 2 + 1, t) then 2 else 1)
  }

  /** The mirrored count is t - 2m + 1 for every m. */
  lemma SourceWaysValue(t: nat, m: int)
    ensures SourceWays(t, m) == t - 2 * m + 1
  {
    NearEnd(t);
  }

  /** `compute_num_ways` as written. */
  method ComputeNumWays(time: nat, dist: int) returns (r: int)
    ensures r == SourceWays(time, Threshold(time, dist))
  {
    var mid := SearchThreshold(time, dist);
    var halfNumWays := time / 2 - mid;
    var waysNearEnd := if Dist(time / 2, time) == Dist(time / 2 + 1, time) then 2 else 1;
    r := halfNumWays * 2 + waysNearEnd;
  }

  /** As written, the count is right whenever the record can be beaten, and for odd race times. */
  lemma SourceWaysAgrees(t: nat, d: int)
    requires Beats(t, d, t / 2) || t % 2 == 1
    ensures SourceWays(t, Threshold(t, d)) == NumWays(t, d)
  {
    SourceWaysValue(t, Threshold(t, d));
    NumWaysByThreshold(t, d);
    ThresholdSplits(t, d, t / 2);
  }

  /** For an even race time whose record cannot be beaten the source reports -1 ways: time 2, record 1. */
  lemma SourceWaysEvenUnbeatable(t: nat, d: int)
    requires t % 2 == 0 && !Beats(t, d, t / 2)
    ensures SourceWays(t, Threshold(t, d)) == -1 && NumWays(t, d) == 0
  {
    ThresholdSplits(t, d, t / 2);
    SourceWaysValue(t, Threshold(t, d));
    NumWaysByThreshold(t, d);
  }

  lemma TimeTwoRecordOne()
    ensures SourceWays(2, Threshold(2, 1)) == -1 && NumWays(2, 1) == 0
  {
    SourceWaysEvenUnbeatable(2, 1);
  }

  /** The count with the unbeatable case guarded: the number of winning holds. */
  method CountWays(time: nat, dist: int) returns (r: nat)
    ensures r == NumWays(time, dist)
  {
    var mid := SearchThreshold(time, dist);
    NumWaysByThreshold(time, dist);
    if mid > time / 2 {
      return 0;
    }
    SourceWaysValue(time, mid);
    r := (time / 2 - mid) * 2 + if Dist(time / 2, time) == Dist(time / 2 + 1, time) then 2 else 1;
  }

  // ---------------------------------------------------------------------
  // Parsing and the two parts
  // ---------------------------------------------------------------------

  /** The whitespace-separated tokens after the first ':'; a missing ':' is a panic. */
  function Fields(line: string): (r: Option<seq<string>>)
    ensures r.Some? <==> ':' in line
  {
    var pieces := Split(line, ':');
    if |pieces| >= 2 then Some(SplitWhitespace(pieces[1])) else None
  }

  function ParseInts(tokens: seq<string>): (r: Option<seq<int>>)
    ensures r.None? <==> exists i :: 0 <= i < |tokens| && ParseInt(tokens[i]).None?
    ensures r.Some? ==> |r.value| == |tokens| && forall i :: 0 <= i < |tokens| ==> ParseInt(tokens[i]) == Some(r.value[i])
  {
    if tokens == [] then Some([])
    else
      var rest := ParseInts(tokens[1..]);
      assert forall i :: 0 < i < |tokens| ==> tokens[i] == tokens[1..][i - 1];
      match (ParseInt(tokens[0]), rest)
      case (Some(x), Some(xs)) => Some([x] + xs)
      case _ => None
  }

  /** `parse_line`: the numbers after the ':'. */
  function ParseLine(line: string): Option<seq<int>>
  {
    match Fields(line)
    case None => None
    case Some(tokens) => ParseInts(tokens)
  }

  function Concat(tokens: seq<string>): string
  {
    if tokens == [] then [] else tokens[0] + Concat(tokens[1..])
  }

  /** `concat_line`: the tokens after the ':' glued together and read as one number. */
  function ConcatLine(line: string): Option<int>
  {
    match Fields(line)
    case None => None
    case Some(tokens) => ParseInt(Concat(tokens))
  }

  /** Kerning is ignored: "Time: 7 15 30" reads as 71530. */
  lemma ConcatExample()
    ensures Concat(["7", "15", "30"]) == "71530"
  {
  }

  /** The product of the race counts over the zipped times and records. */
  function ProductWays(times: seq<nat>, dists: seq<int>): nat
    requires |times| == |dists|
  {
    if times == [] then 1
    else ProductWays(times[..|times| - 1], dists[..|dists| - 1]) * NumWays(times[|times| - 1], dists[|dists| - 1])
  }

  /** Every race that can be won contributes a factor of at least one. */
  lemma {:induction false} ProductWaysPositive(times: seq<nat>, dists: seq<int>)
    requires |times| == |dists|
    requires forall i :: 0 <= i < |times| ==> Beats(times[i], dists[i], times[i] / 2)
    ensures ProductWays(times, dists) >= 1
  {
    if times != [] {
      var n := |times| - 1;
      ProductWaysPositive(times[..n], dists[..n]);
      ThresholdSplits(times[n], dists[n], times[n] / 2);
      NumWaysByThreshold(times[n], dists[n]);
    }
  }

  function AllNat(xs: seq<int>): (r: Option<seq<nat>>)
    ensures r.Some? <==> forall i :: 0 <= i < |xs| ==> xs[i] >= 0
    ensures r.Some? ==> r.value == xs
  {
    if xs == [] then Some([])
    else match (if xs[0] >= 0 then Some(xs[0] as nat) else None, AllNat(xs[1..]))
      case (Some(x), Some(rest)) =>
        assert xs == [xs[0]] + xs[1..];
        Some([x] + rest)
      case _ => None
  }

  /** The source's product loop over the zipped races. */
  method MultiplyWays(times: seq<nat>, dists: seq<int>) returns (r: nat)
    requires |times| == |dists|
    ensures r == ProductWays(times, dists)
  {
    r := 1;
    for k := 0 to |times|
      invariant r == ProductWays(times[..k], dists[..k])
    {
      assert times[..k + 1][..k] == times[..k];
      assert dists[..k + 1][..k] == dists[..k];
      var ways := CountWays(times[k], dists[k]);
      r := r * ways;
    }
    assert times[..|times|] == times && dists[..|dists|] == dists;
  }

  /** Races are zipped, so the shorter line decides how many there are. */
  function Races(lines: seq<string>): Option<(seq<nat>, seq<int>)>
  {
    if |lines| < 2 then None
    else match (ParseLine(lines[0]), ParseLine(lines[1]))
      case (Some(ts), Some(ds)) =>
        var n := if |ts| < |ds| then |ts| else |ds|;
        (match AllNat(ts[..n])
         case Some(times) => Some((times, ds[..n]))
         case None => None)
      case _ => None
  }

  /** Part 1: the product of the ways to win each race. */
  method P1(lines: seq<string>) returns (r: Option<nat>)
    ensures r.None? <==> Races(lines).None?
    ensures r.Some? ==> |Races(lines).value.0| == |Races(lines).value.1|
    ensures r.Some? ==> r.value == ProductWays(Races(lines).value.0, Races(lines).value.1)
  {
    var races := Races(lines);
    if races.None? {
      return None;
    }
    var (times, dists) := races.value;
    var product := MultiplyWays(times, dists);
    return Some(product);
  }

  /** Part 2: one race read with the kerning removed. */
  method P2(lines: seq<string>) returns (r: Option<nat>)
    ensures r.Some? <==>
      |lines| >= 2 && ConcatLine(lines[0]).Some? && ConcatLine(lines[0]).value >= 0 && ConcatLine(lines[1]).Some?
    ensures r.Some? ==> r == Some(NumWays(ConcatLine(lines[0]).value, ConcatLine(lines[1]).value))
  {
    if |lines| < 2 {
      return None;
    }
    var time, dist := ConcatLine(lines[0]), ConcatLine(lines[1]);
    if time.None? || dist.None? || time.value < 0 {
      return None;
    }
    var ways := CountWays(time.value, dist.value);
    return Some(ways);
  }
}
