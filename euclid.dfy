/**
 * Greatest common divisor by Euclid's algorithm and the least common
 * multiple folded over a list, shared by days 8 and 20 (which carry
 * identical `gcd`/`lcm` helpers).
 */
module Euclid {
  import opened Wrappers
  import opened Arith

  /** d divides x (0 divides only 0). */
  predicate Divides(d: nat, x: nat)
  {
    if d == 0 then x == 0 else x % d == 0
  }

  lemma MulDivides(d: nat, k: nat)
    ensures Divides(d, d * k)
  {
    if d > 0 {
      MulMod(d, k);
    }
  }

  lemma MulMod(d: nat, k: nat)
    requires d > 0
    ensures (d * k) % d == 0 && (d * k) / d == k
  {
    var x := d * k;
    var q, r := x / d, x % d;
    assert x == d * q + r && 0 <= r < d;
    assert d * (k - q) == r;
    MulSign(d, k - q);
  }

  lemma DividesWitness(d: nat, x: nat) returns (k: nat)
    requires Divides(d, x)
    ensures x == d * k
  {
    if d == 0 {
      k := 0;
    } else {
      k := x / d;
    }
  }

  lemma DividesTrans(a: nat, b: nat, c: nat)
    requires Divides(a, b) && Divides(b, c)
    ensures Divides(a, c)
  {
    var k1 := DividesWitness(a, b);
    var k2 := DividesWitness(b, c);
    assert c == a * (k1 * k2);
    MulDivides(a, k1 * k2);
  }

  function Gcd(a: nat, b: nat): nat
    decreases b
  {
    if b == 0 then a else Gcd(b, a % b)
  }

  /** Euclid's step keeps the common divisors: d | b and d | a % b exactly when d | a and d | b. */
  lemma EuclidStep(a: nat, b: nat, d: nat)
    requires b > 0
    ensures Divides(d, b) && Divides(d, a % b) <==> Divides(d, a) && Divides(d, b)
  {
    var q := a / b;
    assert a == b * q + a % b;
    if Divides(d, b) {
      var kb := DividesWitness(d, b);
      assert b * q == d * (kb * q);
      if Divides(d, a % b) {
        var kr := DividesWitness(d, a % b);
        assert a == d * (kb * q + kr);
        MulDivides(d, kb * q + kr);
      }
      if Divides(d, a) {
        var ka := DividesWitness(d, a);
        assert d * (ka - kb * q) == a % b;
        MulSign(d, ka - kb * q);
        assert a % b == d * (ka - kb * q);
        MulDivides(d, ka - kb * q);
      }
    }
  }

  /** Gcd(a, b) divides both arguments, and every common divisor divides it. */
  lemma {:induction false} GcdIsGreatest(a: nat, b: nat, d: nat)
    ensures Divides(Gcd(a, b), a) && Divides(Gcd(a, b), b)
    ensures Divides(d, a) && Divides(d, b) ==> Divides(d, Gcd(a, b))
    decreases b
  {
    if b == 0 {
      MulDivides(a, 1);
      MulDivides(a, 0);
    } else {
      GcdIsGreatest(b, a % b, d);
      EuclidStep(a, b, Gcd(a, b));
      EuclidStep(a, b, d);
    }
  }

  /** Gcd is zero only for two zeros. */
  lemma GcdPositive(a: nat, b: nat)
    requires a > 0 || b > 0
    ensures Gcd(a, b) > 0
  {
    GcdIsGreatest(a, b, 0);
  }

  /** One step of the fold: `l * x / gcd(l, x)`; None on a division by zero. */
  function Lcm2(l: nat, x: nat): Option<nat>
  {
    if Gcd(l, x) == 0 then None else Some(l * x / Gcd(l, x))
  }

  /** Both arguments divide a successful step; for positive arguments it succeeds with a positive value. */
  lemma Lcm2IsCommonMultiple(l: nat, x: nat)
    ensures l > 0 || x > 0 ==> Lcm2(l, x).Some?
    ensures Lcm2(l, x).Some? ==> Divides(l, Lcm2(l, x).value) && Divides(x, Lcm2(l, x).value)
    ensures l > 0 && x > 0 ==> Lcm2(l, x).value > 0
  {
    var g := Gcd(l, x);
    GcdIsGreatest(l, x, 0);
    if g > 0 {
      var kl := DividesWitness(g, l);
      var kx := DividesWitness(g, x);
      assert l * x == g * (kl * x);
      MulMod(g, kl * x);
      assert l * x / g == kl * x;
      assert kl * x == kl * (g * kx) == l * kx;
      MulDivides(x, kl);
      assert x * kl == kl * x;
      MulDivides(l, kx);
      if l > 0 && x > 0 {
        assert kl > 0;
      }
    }
  }

  /** The left fold of `Lcm2` over a list, starting from its first element. */
  function LcmOf(nums: seq<nat>): Option<nat>
  {
    if |nums| == 0 then None
    else if |nums| == 1 then Some(nums[0])
    else
      match LcmOf(nums[..|nums| - 1])
      case None => None
      case Some(l) => Lcm2(l, nums[|nums| - 1])
  }

  /**
   * The fold over positive numbers succeeds with a positive number that every
   * element divides.
   */
  lemma {:induction false} LcmOfIsCommonMultiple(nums: seq<nat>)
    requires |nums| > 0 && forall i :: 0 <= i < |nums| ==> nums[i] > 0
    ensures LcmOf(nums).Some? && LcmOf(nums).value > 0
    ensures forall i :: 0 <= i < |nums| ==> Divides(nums[i], LcmOf(nums).value)
  {
    if |nums| == 1 {
      MulDivides(nums[0], 1);
    } else {
      var init := nums[..|nums| - 1];
      LcmOfIsCommonMultiple(init);
      var l := LcmOf(init).value;
      var x := nums[|nums| - 1];
      Lcm2IsCommonMultiple(l, x);
      forall i | 0 <= i < |nums| ensures Divides(nums[i], LcmOf(nums).value) {
        if i < |nums| - 1 {
          assert nums[i] == init[i];
          DividesTrans(nums[i], l, LcmOf(nums).value);
        }
      }
    }
  }

  /** Once the fold fails (a division by zero) it stays failed. */
  lemma {:induction false} LcmOfFails(nums: seq<nat>, i: nat)
    requires 0 < i <= |nums| && LcmOf(nums[..i]) == None
    ensures LcmOf(nums) == None
    decreases |nums| - i
  {
    if i < |nums| {
      assert nums[..i + 1][..i] == nums[..i];
      LcmOfFails(nums, i + 1);
    } else {
      assert nums[..i] == nums;
    }
  }

  /** The source's loop: `lcm := nums[0]`, then `lcm := lcm * nums[i] / gcd(lcm, nums[i])`. */
  method Lcm(nums: seq<nat>) returns (r: Option<nat>)
    ensures r == LcmOf(nums)
  {
    if |nums| == 0 {
      return None;
    }
    var lcm := nums[0];
    for i := 1 to |nums|
      invariant LcmOf(nums[..i]) == Some(lcm)
    {
      assert nums[..i + 1][..i] == nums[..i];
      var g := Gcd(lcm, nums[i]);
      if g == 0 {
        LcmOfFails(nums, i + 1);
        return None;
      }
      lcm := lcm * nums[i] / g;
    }
    assert nums[..|nums|] == nums;
    return Some(lcm);
  }
}
