/** Splitting a list into batches of bounded size, shared by the classifier and the index build. */
module Batching {
  function Batches<T>(items: seq<T>, size: nat): (r: seq<seq<T>>)
    requires size > 0
    ensures forall b :: b in r ==> 0 < |b| <= size
    ensures forall i :: 0 <= i < |r| - 1 ==> |r[i]| == size
    decreases |items|
  {
    if items == [] then []
    else if |items| <= size then [items]
    else [items[..size]] + Batches(items[size..], size)
  }

  function Flatten<T>(batches: seq<seq<T>>): seq<T> {
    if batches == [] then [] else batches[0] + Flatten(batches[1..])
  }

  lemma {:induction false} FlattenSnoc<T>(batches: seq<seq<T>>, last: seq<T>)
    ensures Flatten(batches + [last]) == Flatten(batches) + last
  {
    if batches == [] {
      assert batches + [last] == [last];
      assert Flatten([last]) == last + Flatten<T>([]);
    } else {
      FlattenSnoc(batches[1..], last);
      assert (batches + [last])[1..] == batches[1..] + [last];
    }
  }

  /** Joining the batches gives back the items. */
  lemma {:induction false} FlattenBatches<T>(items: seq<T>, size: nat)
    requires size > 0
    ensures Flatten(Batches(items, size)) == items
    decreases |items|
  {
    if items != [] {
      if |items| <= size {
        assert Flatten([items]) == items + Flatten<T>([]);
      } else {
        FlattenBatches(items[size..], size);
        assert Batches(items, size)[1..] == Batches(items[size..], size);
      }
    }
  }
}
