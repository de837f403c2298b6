/**
 * Model of examples/connectator/connectator.py: `chain_generator(*iterables)`
 * yields every element of the first iterable, then every element of the
 * second, and so on. For finite arguments laziness plays no part in what
 * is yielded, so the generator is modelled by the finite sequence it
 * produces; an infinite argument, after which nothing more is reached, is
 * outside the model.
 */
module Connectator {

  /** The sum of the lengths of the iterables. */
  function TotalLength<T>(iterables: seq<seq<T>>): nat
  {
    if iterables == [] then 0 else |iterables[0]| + TotalLength(iterables[1..])
  }

  /** Everything `chain_generator(*iterables)` yields, in order. */
  function ChainGenerator<T>(iterables: seq<seq<T>>): (r: seq<T>)
    ensures |r| == TotalLength(iterables)
    ensures iterables == [] ==> r == []
    ensures iterables != [] ==> r[..|iterables[0]|] == iterables[0]
  {
    if iterables == [] then [] else iterables[0] + ChainGenerator(iterables[1..])
  }

  /** Chaining distributes over splitting the argument list: every element
      of the earlier arguments comes before every element of the later ones. */
  lemma {:induction false} ChainAppend<T>(a: seq<seq<T>>, b: seq<seq<T>>)
    ensures ChainGenerator(a + b) == ChainGenerator(a) + ChainGenerator(b)
  {
    if a == [] {
      assert a + b == b;
    } else {
      assert (a + b)[1..] == a[1..] + b;
      ChainAppend(a[1..], b);
    }
  }

  /** Element `j` of argument `i` sits at the position given by the lengths
      of the arguments before it: each argument keeps its internal order. */
  lemma {:induction false} ChainAt<T>(iterables: seq<seq<T>>, i: nat, j: nat)
    requires i < |iterables| && j < |iterables[i]|
    ensures TotalLength(iterables[..i]) + j < |ChainGenerator(iterables)|
    ensures ChainGenerator(iterables)[TotalLength(iterables[..i]) + j] == iterables[i][j]
  {
    if i == 0 {
      assert iterables[..0] == [];
    } else {
      var rest := iterables[1..];
      assert iterables[..i][1..] == rest[..i - 1];
      assert TotalLength(iterables[..i]) == |iterables[0]| + TotalLength(rest[..i - 1]);
      ChainAt(rest, i - 1, j);
      var k := TotalLength(rest[..i - 1]) + j;
      assert ChainGenerator(iterables)[|iterables[0]| + k] == ChainGenerator(rest)[k];
    }
  }

  /** The lengths add up across a split of the argument list. */
  lemma {:induction false} TotalLengthAppend<T>(a: seq<seq<T>>, b: seq<seq<T>>)
    ensures TotalLength(a + b) == TotalLength(a) + TotalLength(b)
  {
    ChainAppend(a, b);
  }
}
