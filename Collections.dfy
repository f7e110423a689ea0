/** Sequence operations shared by the request builder and the schema walker. */
module Collections {

  /** The elements of xs that satisfy p, in their original order (a Python list comprehension with `if`,
      or a pandas boolean mask). */
  function Filter<T>(xs: seq<T>, p: T -> bool): (r: seq<T>)
    ensures |r| <= |xs|
    decreases |xs|
  {
    if |xs| == 0 then [] else (if p(xs[0]) then [xs[0]] else []) + Filter(xs[1..], p)
  }

  lemma {:induction false} FilterMember<T>(xs: seq<T>, p: T -> bool, x: T)
    ensures x in Filter(xs, p) <==> x in xs && p(x)
    decreases |xs|
  {
    if |xs| > 0 {
      FilterMember(xs[1..], p, x);
      assert xs == [xs[0]] + xs[1..];
    }
  }

  /** Filtering distributes over concatenation: the kept elements stay in input order. */
  lemma {:induction false} FilterConcat<T>(xs: seq<T>, ys: seq<T>, p: T -> bool)
    ensures Filter(xs + ys, p) == Filter(xs, p) + Filter(ys, p)
    decreases |xs|
  {
    if |xs| > 0 {
      assert (xs + ys)[1..] == xs[1..] + ys;
      FilterConcat(xs[1..], ys, p);
    } else {
      assert xs + ys == ys;
    }
  }

  /** Every element satisfies p exactly when filtering keeps the whole sequence. */
  lemma {:induction false} FilterKeepsAll<T>(xs: seq<T>, p: T -> bool)
    ensures Filter(xs, p) == xs <==> forall i :: 0 <= i < |xs| ==> p(xs[i])
    decreases |xs|
  {
    if |xs| > 0 {
      FilterKeepsAll(xs[1..], p);
      if !p(xs[0]) {
        assert |Filter(xs, p)| < |xs|;
      }
      assert forall i :: 1 <= i < |xs| ==> xs[i] == xs[1..][i - 1];
    }
  }

  /** The distinct elements of xs in order of first occurrence (pandas `Series.unique`). */
  function Distinct<T(==)>(xs: seq<T>): (r: seq<T>)
    decreases |xs|
  {
    if |xs| == 0 then []
    else
      var init := xs[..|xs| - 1];
      if xs[|xs| - 1] in init then Distinct(init) else Distinct(init) + [xs[|xs| - 1]]
  }

  lemma {:induction false} DistinctMember<T>(xs: seq<T>, x: T)
    ensures x in Distinct(xs) <==> x in xs
    decreases |xs|
  {
    if |xs| > 0 {
      var init := xs[..|xs| - 1];
      DistinctMember(init, x);
      DistinctMember(init, xs[|xs| - 1]);
      assert xs == init + [xs[|xs| - 1]];
    }
  }

  /** No element occurs twice. */
  lemma {:induction false} DistinctNoDuplicates<T>(xs: seq<T>)
    ensures forall i, j :: 0 <= i < j < |Distinct(xs)| ==> Distinct(xs)[i] != Distinct(xs)[j]
    decreases |xs|
  {
    if |xs| > 0 {
      var init := xs[..|xs| - 1];
      DistinctNoDuplicates(init);
      DistinctMember(init, xs[|xs| - 1]);
    }
  }

  /** The distinct elements of a prefix come first, in the same order: this is what makes the order
      the order of first occurrence. */
  lemma {:induction false} DistinctPrefix<T>(xs: seq<T>, k: nat)
    requires k <= |xs|
    ensures |Distinct(xs[..k])| <= |Distinct(xs)|
    ensures Distinct(xs[..k]) == Distinct(xs)[..|Distinct(xs[..k])|]
    decreases |xs|
  {
    if k < |xs| {
      var init := xs[..|xs| - 1];
      assert xs[..k] == init[..k];
      DistinctPrefix(init, k);
    } else {
      assert xs[..k] == xs;
    }
  }

  /** Concatenation of a sequence of sequences, in order (repeated `pd.concat`). */
  function Concat<T>(xss: seq<seq<T>>): (r: seq<T>)
    decreases |xss|
  {
    if |xss| == 0 then [] else Concat(xss[..|xss| - 1]) + xss[|xss| - 1]
  }

  lemma {:induction false} ConcatCons<T>(xs: seq<T>, xss: seq<seq<T>>)
    ensures Concat([xs] + xss) == xs + Concat(xss)
    decreases |xss|
  {
    var whole := [xs] + xss;
    if |xss| == 0 {
      assert whole[..0] == [];
    } else {
      var init := xss[..|xss| - 1];
      assert whole[..|whole| - 1] == [xs] + init;
      ConcatCons(xs, init);
    }
  }

  /** Each element as a one-element list (`[[i] for i in xs]`). */
  function Wrap<T>(xs: seq<T>): seq<seq<T>>
  {
    seq(|xs|, i requires 0 <= i < |xs| => [xs[i]])
  }

  /** Wrapping loses nothing: flattening the singletons gives back the input. */
  lemma {:induction false} ConcatWrap<T>(xs: seq<T>)
    ensures |Wrap(xs)| == |xs|
    ensures forall i :: 0 <= i < |xs| ==> |Wrap(xs)[i]| == 1
    ensures Concat(Wrap(xs)) == xs
    decreases |xs|
  {
    if |xs| > 0 {
      var init := xs[..|xs| - 1];
      assert Wrap(xs)[..|xs| - 1] == Wrap(init);
      ConcatWrap(init);
      assert xs == init + [xs[|xs| - 1]];
    }
  }
}
