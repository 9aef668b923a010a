/** The three loop shapes the backends share, as functions on sequences:
    a `for` loop that pushes the matches it builds (FilterMap), a `for`
    loop that returns at the first match (FirstSome), and a `for` loop that
    issues a fixed group of items per element (FlatMap). */
module Seqs {
  import opened Wrappers

  /** What `f` keeps of `xs`, in order. Built from the back, as a loop that
      pushes onto a vector builds it. */
  function FilterMap<A, B>(xs: seq<A>, f: A -> Option<B>): (r: seq<B>)
    ensures |r| <= |xs|
  {
    if xs == [] then []
    else
      FilterMap(xs[..|xs| - 1], f) + (match f(xs[|xs| - 1]) case Some(y) => [y] case None => [])
  }

  /** The positions of `xs` whose elements `f` keeps, in increasing order. */
  ghost function Kept<A, B>(xs: seq<A>, f: A -> Option<B>): seq<nat> {
    if xs == [] then []
    else Kept(xs[..|xs| - 1], f) + (if f(xs[|xs| - 1]).Some? then [|xs| - 1] else [])
  }

  /** FilterMap keeps exactly the elements `f` maps to `Some`, in their order:
      its result is an order-preserving selection of `xs`. */
  lemma {:induction false} FilterMapSelects<A, B>(xs: seq<A>, f: A -> Option<B>)
    ensures |Kept(xs, f)| == |FilterMap(xs, f)|
    ensures forall k | 0 <= k < |Kept(xs, f)| ::
      Kept(xs, f)[k] < |xs| && f(xs[Kept(xs, f)[k]]) == Some(FilterMap(xs, f)[k])
    ensures forall k, l | 0 <= k < l < |Kept(xs, f)| :: Kept(xs, f)[k] < Kept(xs, f)[l]
    ensures forall i | 0 <= i < |xs| :: f(xs[i]).Some? <==> i in Kept(xs, f)
    decreases |xs|
  {
    if xs != [] {
      var init := xs[..|xs| - 1];
      assert forall i | 0 <= i < |init| :: init[i] == xs[i];
      FilterMapSelects(init, f);
    }
  }

  /** Every element FilterMap keeps is the image of some element of `xs`. */
  lemma FilterMapFrom<A, B>(xs: seq<A>, f: A -> Option<B>, k: nat)
    requires k < |FilterMap(xs, f)|
    ensures exists i | 0 <= i < |xs| :: f(xs[i]) == Some(FilterMap(xs, f)[k])
  {
    FilterMapSelects(xs, f);
    var i := Kept(xs, f)[k];
    assert f(xs[i]) == Some(FilterMap(xs, f)[k]);
  }

  /** The first result of `f` over `xs` that is `Some`. */
  function FirstSome<A, B>(xs: seq<A>, f: A -> Option<B>): (r: Option<B>)
    ensures r.Some? ==>
      exists i | 0 <= i < |xs| :: f(xs[i]) == r && forall j | 0 <= j < i :: f(xs[j]).None?
    ensures r.None? ==> forall i | 0 <= i < |xs| :: f(xs[i]).None?
  {
    if xs == [] then None
    else if f(xs[0]).Some? then f(xs[0])
    else
      var r := FirstSome(xs[1..], f);
      assert forall i | 1 <= i < |xs| :: xs[1..][i - 1] == xs[i];
      r
  }

  /** The groups `g` gives for the elements of `xs`, one after another. */
  function FlatMap<A, C, B>(xs: seq<A>, ctx: C, g: (A, C) -> seq<B>): seq<B> {
    if xs == [] then []
    else FlatMap(xs[..|xs| - 1], ctx, g) + g(xs[|xs| - 1], ctx)
  }

  /** The group of one element sits between the groups of those before and after it. */
  lemma {:induction false} FlatMapSplit<A, C, B>(xs: seq<A>, ctx: C, g: (A, C) -> seq<B>, i: nat)
    requires i < |xs|
    ensures FlatMap(xs, ctx, g) == FlatMap(xs[..i], ctx, g) + g(xs[i], ctx) + FlatMap(xs[i + 1..], ctx, g)
    decreases |xs|
  {
    if i == |xs| - 1 {
      assert xs[..|xs| - 1] == xs[..i];
      assert xs[i + 1..] == [];
    } else {
      var init := xs[..|xs| - 1];
      FlatMapSplit(init, ctx, g, i);
      assert init[..i] == xs[..i];
      assert init[i] == xs[i];
      var tail := xs[i + 1..];
      assert tail[..|tail| - 1] == init[i + 1..];
      assert tail[|tail| - 1] == xs[|xs| - 1];
    }
  }

  /** The step of a loop over `xs`: the groups up to and including element `i`
      extend those before it, and the rest follow. */
  lemma FlatMapStep<A, C, B>(xs: seq<A>, ctx: C, g: (A, C) -> seq<B>, i: nat)
    requires i < |xs|
    ensures FlatMap(xs[..i + 1], ctx, g) == FlatMap(xs[..i], ctx, g) + g(xs[i], ctx)
    ensures FlatMap(xs, ctx, g) == FlatMap(xs[..i], ctx, g) + g(xs[i], ctx) + FlatMap(xs[i + 1..], ctx, g)
  {
    assert xs[..i + 1][..i] == xs[..i];
    FlatMapSplit(xs, ctx, g, i);
  }

  /** When every group has `n` items, item `j` of element `k`'s group is at `k * n + j`. */
  lemma {:induction false} FlatMapAt<A, C, B>(xs: seq<A>, ctx: C, g: (A, C) -> seq<B>, n: nat, k: nat, j: nat)
    requires forall x :: |g(x, ctx)| == n
    requires k < |xs| && j < n
    ensures |FlatMap(xs, ctx, g)| == |xs| * n
    ensures k * n + j < |FlatMap(xs, ctx, g)| && FlatMap(xs, ctx, g)[k * n + j] == g(xs[k], ctx)[j]
    decreases |xs|
  {
    FlatMapLength(xs, ctx, g, n);
    FlatMapLength(xs[..k], ctx, g, n);
    FlatMapSplit(xs, ctx, g, k);
    assert |xs[..k]| == k;
  }

  lemma {:induction false} FlatMapLength<A, C, B>(xs: seq<A>, ctx: C, g: (A, C) -> seq<B>, n: nat)
    requires forall x :: |g(x, ctx)| == n
    ensures |FlatMap(xs, ctx, g)| == |xs| * n
    decreases |xs|
  {
    if xs != [] {
      FlatMapLength(xs[..|xs| - 1], ctx, g, n);
      assert |xs| * n == (|xs| - 1) * n + n;
    }
  }

  /** Regrouping appends; stated once so that callers need not rely on the
      solver rediscovering it. */
  lemma AppendAssoc3<T>(a: seq<T>, b: seq<T>, c: seq<T>)
    ensures a + b + c == a + (b + c)
  {
  }

  lemma AppendAssoc4<T>(a: seq<T>, b: seq<T>, c: seq<T>, d: seq<T>)
    ensures a + b + c + d == a + (b + c + d)
  {
  }
}
