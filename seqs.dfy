/** Small facts about sequences of sequences shared by both parts of the model. */
module Seqs {

  /** The total number of elements in a sequence of sequences. */
  function SumLengths<T>(xss: seq<seq<T>>): nat
    decreases |xss|
  {
    if xss == [] then 0 else |xss[0]| + SumLengths(xss[1..])
  }

  lemma {:induction false} SumLengthsAppend<T>(xss: seq<seq<T>>, ys: seq<T>)
    ensures SumLengths(xss + [ys]) == SumLengths(xss) + |ys|
    decreases |xss|
  {
    if xss != [] {
      assert (xss + [ys])[1..] == xss[1..] + [ys];
      SumLengthsAppend(xss[1..], ys);
    }
  }

  /** No element occurs twice. */
  predicate NoRepeats<T(==)>(xs: seq<T>)
  {
    forall i, j :: 0 <= i < j < |xs| ==> xs[i] != xs[j]
  }

  /** Two repeat-free sequences with no element in common concatenate without repeats. */
  lemma NoRepeatsAppend<T>(xs: seq<T>, ys: seq<T>)
    requires NoRepeats(xs) && NoRepeats(ys)
    requires forall x :: x in xs ==> x !in ys
    ensures NoRepeats(xs + ys)
  {
    var zs := xs + ys;
    forall i, j | 0 <= i < j < |zs| ensures zs[i] != zs[j] {
      if i < |xs| && |xs| <= j {
        assert zs[i] in xs && zs[j] == ys[j - |xs|];
      }
    }
  }

  /** The set of the elements of a sequence. */
  function Elements<T>(xs: seq<T>): set<T>
  {
    set x | x in xs
  }

  /** A repeat-free sequence has as many elements as the set of its elements. */
  lemma {:induction false} NoRepeatsCard<T>(xs: seq<T>)
    requires NoRepeats(xs)
    ensures |Elements(xs)| == |xs|
    decreases |xs|
  {
    if xs != [] {
      var init := xs[..|xs| - 1];
      var last := xs[|xs| - 1];
      assert xs == init + [last];
      assert NoRepeats(init);
      NoRepeatsCard(init);
      assert Elements(xs) == Elements(init) + {last};
      assert last !in init;
    }
  }
}
