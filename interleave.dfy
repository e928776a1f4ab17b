// The interleaving generator `findAllInterleavings` (the same function in
// src/matchbox.js and src/matchbox-worker.js): every order-preserving merge of
// two sequences, the merges that take a[0] first listed before those that take
// b[0] first.

module Interleave {

  // ---------------------------------------------------------------------
  // The specification
  // ---------------------------------------------------------------------

  /** `[x].concat(s)` for every `s` of `ss`, in order. */
  function PrependAll<T>(x: T, ss: seq<seq<T>>): seq<seq<T>> {
    seq(|ss|, k requires 0 <= k < |ss| => [x] + ss[k])
  }

  /** Entry k of two prepended lists placed one after the other. */
  lemma PrependBothAt<T>(x: T, xs: seq<seq<T>>, y: T, ys: seq<seq<T>>, k: nat)
    requires k < |xs| + |ys|
    ensures |PrependAll(x, xs) + PrependAll(y, ys)| == |xs| + |ys|
    ensures k < |xs| ==> (PrependAll(x, xs) + PrependAll(y, ys))[k] == [x] + xs[k]
    ensures k >= |xs| ==> (PrependAll(x, xs) + PrependAll(y, ys))[k] == [y] + ys[k - |xs|]
  {
  }

  /** The list `findAllInterleavings(a, b)` returns. */
  function Interleavings<T>(a: seq<T>, b: seq<T>): seq<seq<T>>
    decreases |a| + |b|
  {
    if |a| == 0 then [b]
    else if |b| == 0 then [a]
    else PrependAll(a[0], Interleavings(a[1..], b)) + PrependAll(b[0], Interleavings(a, b[1..]))
  }

  /** Every interleaving has length |a| + |b|. */
  lemma {:induction false} InterleavingsLength<T>(a: seq<T>, b: seq<T>)
    ensures |Interleavings(a, b)| > 0
    ensures forall k :: 0 <= k < |Interleavings(a, b)| ==> |Interleavings(a, b)[k]| == |a| + |b|
    decreases |a| + |b|
  {
    if |a| > 0 && |b| > 0 {
      InterleavingsLength(a[1..], b);
      InterleavingsLength(a, b[1..]);
      var front := PrependAll(a[0], Interleavings(a[1..], b));
      var back := PrependAll(b[0], Interleavings(a, b[1..]));
      assert Interleavings(a, b) == front + back;
    }
  }

  /** The binomial coefficient C(n, k), by Pascal's rule. */
  function Binom(n: nat, k: nat): nat
    decreases n
  {
    if k == 0 || k == n then 1
    else if k > n then 0
    else Binom(n - 1, k - 1) + Binom(n - 1, k)
  }

  /** There are C(|a| + |b|, |a|) interleavings. */
  lemma {:induction false} InterleavingsCount<T>(a: seq<T>, b: seq<T>)
    ensures |Interleavings(a, b)| == Binom(|a| + |b|, |a|)
    decreases |a| + |b|
  {
    if |a| == 0 {
      assert Interleavings(a, b) == [b];
    } else if |b| == 0 {
      assert Interleavings(a, b) == [a];
    } else {
      InterleavingsCount(a[1..], b);
      InterleavingsCount(a, b[1..]);
      InterleavingsSplit(a, b);
      BinomStep(|a| + |b|, |a|);
    }
  }

  /** With both lists non-empty, the interleavings taking a[0] first and those taking b[0] first add up. */
  lemma InterleavingsSplit<T>(a: seq<T>, b: seq<T>)
    requires |a| > 0 && |b| > 0
    ensures |Interleavings(a, b)| == |Interleavings(a[1..], b)| + |Interleavings(a, b[1..])|
  {
    var front := PrependAll(a[0], Interleavings(a[1..], b));
    var back := PrependAll(b[0], Interleavings(a, b[1..]));
    assert Interleavings(a, b) == front + back;
  }

  /** Pascal's rule, away from the edges. */
  lemma BinomStep(n: nat, k: nat)
    requires 0 < k < n
    ensures Binom(n, k) == Binom(n - 1, k - 1) + Binom(n - 1, k)
  {
  }

  /**
   * The shape of the result: the other list alone when one is empty;
   * otherwise the first C(|a| + |b| - 1, |a| - 1) results start with a[0]
   * and all the rest with b[0].
   */
  lemma InterleavingsOrder<T>(a: seq<T>, b: seq<T>)
    ensures |a| == 0 ==> Interleavings(a, b) == [b]
    ensures |a| > 0 && |b| == 0 ==> Interleavings(a, b) == [a]
    ensures |a| > 0 && |b| > 0 ==>
      var r, h := Interleavings(a, b), Binom(|a| + |b| - 1, |a| - 1);
      && h < |r|
      && (forall k :: 0 <= k < h ==> r[k][0] == a[0])
      && (forall k :: h <= k < |r| ==> r[k][0] == b[0])
  {
    if |a| == 0 {
      assert Interleavings(a, b) == [b];
    } else if |b| == 0 {
      assert Interleavings(a, b) == [a];
    } else {
      InterleavingsCount(a[1..], b);
      InterleavingsLength(a, b[1..]);
      var front := PrependAll(a[0], Interleavings(a[1..], b));
      var back := PrependAll(b[0], Interleavings(a, b[1..]));
      assert |front| == Binom(|a| + |b| - 1, |a| - 1);
      FirstElements(front, back, a[0], b[0]);
      assert Interleavings(a, b) == front + back;
    }
  }

  lemma FirstElements<T>(front: seq<seq<T>>, back: seq<seq<T>>, x: T, y: T)
    requires forall k :: 0 <= k < |front| ==> |front[k]| > 0 && front[k][0] == x
    requires forall k :: 0 <= k < |back| ==> |back[k]| > 0 && back[k][0] == y
    ensures forall k :: 0 <= k < |front| ==> (front + back)[k][0] == x
    ensures forall k :: |front| <= k < |front + back| ==> (front + back)[k][0] == y
  {
  }

  // ---------------------------------------------------------------------
  // Merges as choice lists
  // ---------------------------------------------------------------------

  /** How many picks of a choice list take from `a` (true) or from `b` (false). */
  function Picks(c: seq<bool>, side: bool): nat {
    if |c| == 0 then 0 else (if c[0] == side then 1 else 0) + Picks(c[1..], side)
  }

  /** A choice list that takes every element of an `na`-list and an `nb`-list exactly once. */
  predicate Fits(c: seq<bool>, na: nat, nb: nat) {
    Picks(c, true) == na && Picks(c, false) == nb
  }

  lemma {:induction false} PicksLength(c: seq<bool>)
    ensures Picks(c, true) + Picks(c, false) == |c|
  {
    if |c| > 0 {
      PicksLength(c[1..]);
    }
  }

  /** The merge of `a` and `b` that the choice list `c` describes. */
  function Merge<T>(c: seq<bool>, a: seq<T>, b: seq<T>): (m: seq<T>)
    requires Fits(c, |a|, |b|)
    ensures |m| == |a| + |b|
  {
    PicksLength(c);
    if |c| == 0 then []
    else if c[0] then [a[0]] + Merge(c[1..], a[1..], b)
    else [b[0]] + Merge(c[1..], a, b[1..])
  }

  /** The elements of `s` at the positions where `c` is `side`, in order. */
  function Project<T>(c: seq<bool>, s: seq<T>, side: bool): seq<T>
    requires |c| == |s|
  {
    if |c| == 0 then []
    else (if c[0] == side then [s[0]] else []) + Project(c[1..], s[1..], side)
  }

  /** A merge preserves order: keeping the elements taken from `a` gives `a`, and likewise for `b`. */
  lemma {:induction false} MergeProjects<T>(c: seq<bool>, a: seq<T>, b: seq<T>)
    requires Fits(c, |a|, |b|)
    ensures |c| == |Merge(c, a, b)|
    ensures Project(c, Merge(c, a, b), true) == a
    ensures Project(c, Merge(c, a, b), false) == b
  {
    PicksLength(c);
    if |c| > 0 {
      var m := Merge(c, a, b);
      if c[0] {
        MergeProjects(c[1..], a[1..], b);
        assert m[0] == a[0] && m[1..] == Merge(c[1..], a[1..], b);
        assert [a[0]] + a[1..] == a;
      } else {
        MergeProjects(c[1..], a, b[1..]);
        assert m[0] == b[0] && m[1..] == Merge(c[1..], a, b[1..]);
        assert [b[0]] + b[1..] == b;
      }
    }
  }

  /** `nb` picks from `b`, or `na` picks from `a`. */
  function Same(side: bool, n: nat): (c: seq<bool>)
    ensures Picks(c, side) == n && Picks(c, !side) == 0
  {
    if n == 0 then [] else [side] + Same(side, n - 1)
  }

  /** Every choice list for lists of lengths `na` and `nb`, in the order `findAllInterleavings` lists merges. */
  function Choices(na: nat, nb: nat): (r: seq<seq<bool>>)
    decreases na + nb
  {
    if na == 0 then [Same(false, nb)]
    else if nb == 0 then [Same(true, na)]
    else PrependAll(true, Choices(na - 1, nb)) + PrependAll(false, Choices(na, nb - 1))
  }

  /** A choice list is listed exactly when it fits. */
  lemma ChoicesComplete(na: nat, nb: nat, c: seq<bool>)
    ensures c in Choices(na, nb) <==> Fits(c, na, nb)
  {
    if na == 0 || nb == 0 {
      OnlyOneSide(c, na == 0, if na == 0 then nb else na);
    } else {
      if c in Choices(na, nb) {
        var k :| 0 <= k < |Choices(na, nb)| && Choices(na, nb)[k] == c;
        ChoicesFit(na, nb, k);
      }
      if Fits(c, na, nb) {
        FitsListed(na, nb, c);
      }
    }
  }

  lemma {:induction false} ChoicesFit(na: nat, nb: nat, k: nat)
    requires k < |Choices(na, nb)|
    ensures Fits(Choices(na, nb)[k], na, nb)
    decreases na + nb
  {
    if na == 0 || nb == 0 {
      OnlyOneSide([], na == 0, if na == 0 then nb else na);
    } else {
      var h := |Choices(na - 1, nb)|;
      PrependBothAt(true, Choices(na - 1, nb), false, Choices(na, nb - 1), k);
      if k < h {
        var c := Choices(na - 1, nb)[k];
        assert Choices(na, nb)[k] == [true] + c;
        ChoicesFit(na - 1, nb, k);
        PicksCons(true, c);
      } else {
        var c := Choices(na, nb - 1)[k - h];
        assert Choices(na, nb)[k] == [false] + c;
        ChoicesFit(na, nb - 1, k - h);
        PicksCons(false, c);
      }
    }
  }

  /** One more pick in front counts once more on its side. */
  lemma PicksCons(side: bool, c: seq<bool>)
    ensures Picks([side] + c, side) == Picks(c, side) + 1
    ensures Picks([side] + c, !side) == Picks(c, !side)
  {
    assert ([side] + c)[1..] == c;
  }

  lemma {:induction false} FitsListed(na: nat, nb: nat, c: seq<bool>)
    requires Fits(c, na, nb)
    ensures c in Choices(na, nb)
    decreases na + nb
  {
    if na == 0 || nb == 0 {
      OnlyOneSide(c, na == 0, if na == 0 then nb else na);
    } else {
      assert |c| > 0 && [c[0]] + c[1..] == c;
      if c[0] {
        FitsListed(na - 1, nb, c[1..]);
        InPrependAll(true, Choices(na - 1, nb), c[1..]);
      } else {
        FitsListed(na, nb - 1, c[1..]);
        InPrependAll(false, Choices(na, nb - 1), c[1..]);
      }
    }
  }

  lemma InPrependAll<T>(x: T, ss: seq<seq<T>>, s: seq<T>)
    requires s in ss
    ensures [x] + s in PrependAll(x, ss)
  {
    var k :| 0 <= k < |ss| && ss[k] == s;
    assert PrependAll(x, ss)[k] == [x] + s;
  }

  /** The one choice list that never picks `!side` and picks `side` n times. */
  lemma {:induction false} OnlyOneSide(c: seq<bool>, side: bool, n: nat)
    ensures Fits(c, if side then 0 else n, if side then n else 0) ==> c == Same(!side, n)
    ensures Choices(if side then 0 else n, if side then n else 0) == [Same(!side, n)]
    ensures c in Choices(if side then 0 else n, if side then n else 0) <==> Fits(c, if side then 0 else n, if side then n else 0)
  {
    SameOnly(c, !side, n);
  }

  lemma {:induction false} SameOnly(c: seq<bool>, side: bool, n: nat)
    ensures Picks(c, side) == n && Picks(c, !side) == 0 <==> c == Same(side, n)
    decreases |c|
  {
    if |c| > 0 && n > 0 {
      SameOnly(c[1..], side, n - 1);
    } else if |c| > 0 {
      assert Picks(c, c[0]) > 0;
    } else if n > 0 {
      assert |Same(side, n)| > 0;
    }
  }

  /** No choice list is listed twice. */
  lemma {:induction false} ChoicesDistinct(na: nat, nb: nat)
    ensures forall j, k :: 0 <= j < k < |Choices(na, nb)| ==> Choices(na, nb)[j] != Choices(na, nb)[k]
    decreases na + nb
  {
    if na > 0 && nb > 0 {
      ChoicesDistinct(na - 1, nb);
      ChoicesDistinct(na, nb - 1);
      var r := Choices(na, nb);
      forall j, k | 0 <= j < k < |r|
        ensures r[j] != r[k]
      {
        PrependedDiffer(Choices(na - 1, nb), Choices(na, nb - 1), j, k);
      }
    }
  }

  /** Two entries of a prepended pair of distinct lists differ. */
  lemma PrependedDiffer(xs: seq<seq<bool>>, ys: seq<seq<bool>>, j: nat, k: nat)
    requires forall j, k :: 0 <= j < k < |xs| ==> xs[j] != xs[k]
    requires forall j, k :: 0 <= j < k < |ys| ==> ys[j] != ys[k]
    requires j < k < |xs| + |ys|
    ensures (PrependAll(true, xs) + PrependAll(false, ys))[j] != (PrependAll(true, xs) + PrependAll(false, ys))[k]
  {
    PrependBothAt(true, xs, false, ys, j);
    PrependBothAt(true, xs, false, ys, k);
    var r := PrependAll(true, xs) + PrependAll(false, ys);
    if k < |xs| {
      assert r[j][1..] == xs[j] && r[k][1..] == xs[k];
    } else if j >= |xs| {
      assert r[j][1..] == ys[j - |xs|] && r[k][1..] == ys[k - |xs|];
    } else {
      assert r[j][0] != r[k][0];
    }
  }

  /**
   * Result k of `findAllInterleavings(a, b)` is the merge described by
   * choice list k: the result is exactly the merges of every fitting
   * choice list, each once.
   */
  lemma {:induction false} InterleavingsAreMerges<T>(a: seq<T>, b: seq<T>)
    ensures |Interleavings(a, b)| == |Choices(|a|, |b|)|
    ensures forall k :: 0 <= k < |Choices(|a|, |b|)| ==>
      Fits(Choices(|a|, |b|)[k], |a|, |b|) && Interleavings(a, b)[k] == Merge(Choices(|a|, |b|)[k], a, b)
    decreases |a| + |b|
  {
    var cs := Choices(|a|, |b|);
    var r := Interleavings(a, b);
    if |a| == 0 || |b| == 0 {
      OnlyOneSide([], |a| == 0, if |a| == 0 then |b| else |a|);
      MergeSame(a, b);
    } else {
      InterleavingsAreMerges(a[1..], b);
      InterleavingsAreMerges(a, b[1..]);
      var h := |Choices(|a| - 1, |b|)|;
      assert cs == PrependAll(true, Choices(|a| - 1, |b|)) + PrependAll(false, Choices(|a|, |b| - 1));
      assert r == PrependAll(a[0], Interleavings(a[1..], b)) + PrependAll(b[0], Interleavings(a, b[1..]));
      forall k | 0 <= k < |cs|
        ensures Fits(cs[k], |a|, |b|) && r[k] == Merge(cs[k], a, b)
      {
        PrependBothAt(true, Choices(|a| - 1, |b|), false, Choices(|a|, |b| - 1), k);
        PrependBothAt(a[0], Interleavings(a[1..], b), b[0], Interleavings(a, b[1..]), k);
        if k < h {
          var c := Choices(|a| - 1, |b|)[k];
          assert cs[k] == [true] + c;
          assert r[k] == [a[0]] + Interleavings(a[1..], b)[k];
          ChoiceStep(true, c, a, b);
        } else {
          var c := Choices(|a|, |b| - 1)[k - h];
          assert cs[k] == [false] + c;
          assert r[k] == [b[0]] + Interleavings(a, b[1..])[k - h];
          ChoiceStep(false, c, a, b);
        }
      }
    }
  }

  /** Putting one more pick in front of a choice list merges one more element in front. */
  lemma ChoiceStep<T>(side: bool, c: seq<bool>, a: seq<T>, b: seq<T>)
    requires if side then |a| > 0 && Fits(c, |a| - 1, |b|) else |b| > 0 && Fits(c, |a|, |b| - 1)
    ensures Fits([side] + c, |a|, |b|)
    ensures side ==> Merge([side] + c, a, b) == [a[0]] + Merge(c, a[1..], b)
    ensures !side ==> Merge([side] + c, a, b) == [b[0]] + Merge(c, a, b[1..])
  {
    assert ([side] + c)[1..] == c;
  }

  lemma {:induction false} MergeSame<T>(a: seq<T>, b: seq<T>)
    requires |a| == 0 || |b| == 0
    ensures |a| == 0 ==> Merge(Same(false, |b|), a, b) == b
    ensures |a| > 0 ==> Merge(Same(true, |a|), a, b) == a
    decreases |a| + |b|
  {
    if |a| == 0 && |b| > 0 {
      MergeSame(a, b[1..]);
      assert [b[0]] + b[1..] == b;
    } else if |a| > 0 {
      MergeSame(a[1..], b);
      assert [a[0]] + a[1..] == a;
    }
  }

  // ---------------------------------------------------------------------
  // The implementation
  // ---------------------------------------------------------------------

  /** One more pushed sub-result extends the prepended prefix by one. */
  lemma PrependAllSnoc<T>(x: T, ss: seq<seq<T>>, i: nat)
    requires i < |ss|
    ensures PrependAll(x, ss[..i + 1]) == PrependAll(x, ss[..i]) + [[x] + ss[i]]
  {
    assert ss[..i + 1][..i] == ss[..i];
  }

  /**
   * `findAllInterleavings(a, b)`: recursion on the rests of the two lists,
   * with loops that push each sub-result behind its first element.  The
   * lists are values here, so the inputs cannot change.
   */
  method FindAllInterleavings<T>(a: seq<T>, b: seq<T>) returns (result: seq<seq<T>>)
    ensures result == Interleavings(a, b)
    decreases |a| + |b|
  {
    if |a| == 0 {
      return [b];
    } else if |b| == 0 {
      return [a];
    }
    result := [];

    var fst := a[0];
    var rst := a[1..];
    var inters := FindAllInterleavings(rst, b);
    for i := 0 to |inters|
      invariant result == PrependAll(fst, inters[..i])
    {
      PrependAllSnoc(fst, inters, i);
      result := result + [[fst] + inters[i]];
    }
    assert inters[..|inters|] == inters;

    ghost var firstHalf := result;
    fst := b[0];
    rst := b[1..];
    inters := FindAllInterleavings(a, rst);
    for i := 0 to |inters|
      invariant result == firstHalf + PrependAll(fst, inters[..i])
    {
      PrependAllSnoc(fst, inters, i);
      result := result + [[fst] + inters[i]];
    }
    assert inters[..|inters|] == inters;
  }
}
