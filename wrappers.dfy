/** Option type used for the source's `unwrap`/`panic!` failure paths. */
module Wrappers {

  datatype Option<T> = None | Some(value: T)

  /** Generic filter (Rust `Vec::retain` / `Iterator::filter`): keeps the order. */
  function Filter<T>(s: seq<T>, keep: T -> bool): (r: seq<T>)
    ensures |r| <= |s|
    ensures forall i :: 0 <= i < |r| ==> r[i] in s && keep(r[i])
    ensures forall i :: 0 <= i < |s| && keep(s[i]) ==> s[i] in r
  {
    if s == [] then []
    else (if keep(s[0]) then [s[0]] else []) + Filter(s[1..], keep)
  }

  /** Number of elements satisfying `keep` (Rust `filter(..).count()`). */
  function Count<T>(s: seq<T>, keep: T -> bool): (r: nat)
    ensures r <= |s|
  {
    if s == [] then 0 else (if keep(s[0]) then 1 else 0) + Count(s[1..], keep)
  }

  /** Applies a fallible parser to every element; `None` as soon as one fails
      (Rust `collect::<Option<Vec<_>>>()` over `unwrap`-ing parsers). */
  function MapAll<A, B>(f: A -> Option<B>, xs: seq<A>): (r: Option<seq<B>>)
    ensures r.None? <==> exists i :: 0 <= i < |xs| && f(xs[i]).None?
    ensures r.Some? ==> |r.value| == |xs| && forall i :: 0 <= i < |xs| ==> f(xs[i]) == Some(r.value[i])
  {
    if xs == [] then Some([])
    else
      var init := xs[..|xs| - 1];
      assert forall i :: 0 <= i < |init| ==> init[i] == xs[i];
      match (MapAll(f, init), f(xs[|xs| - 1]))
      case (Some(ys), Some(y)) => Some(ys + [y])
      case _ => None
  }

  /** One more element: how `MapAll` of a longer prefix follows from the shorter one. */
  lemma MapAllSnoc<A, B>(f: A -> Option<B>, xs: seq<A>, k: nat)
    requires k < |xs|
    ensures MapAll(f, xs[..k + 1]) ==
      match (MapAll(f, xs[..k]), f(xs[k]))
      case (Some(ys), Some(y)) => Some(ys + [y])
      case _ => None
  {
    assert xs[..k + 1][..k] == xs[..k];
  }

  function Sum(s: seq<int>): int
  {
    if s == [] then 0 else s[0] + Sum(s[1..])
  }

  lemma {:induction false} SumAppend(a: seq<int>, b: seq<int>)
    ensures Sum(a + b) == Sum(a) + Sum(b)
  {
    if a == [] {
      assert a + b == b;
    } else {
      assert (a + b)[1..] == a[1..] + b;
      SumAppend(a[1..], b);
    }
  }
}
